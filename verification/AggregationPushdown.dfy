/**
 Aggregates answered by the index: the sub-aggregations derived from a plan, the columns read back from buckets, the
 documents that are aggregated, and the split every partition reads.
*/
module AggregationPushdown {
  import opened Prelude
  import opened Expressions
  import opened IndexQueries
  import opened FullText
  import opened AggregationStates

  // ---------------------------------------------------------------------------
  // Sub-aggregations
  // ---------------------------------------------------------------------------

  /**
   An aggregate expression: its output name, the column that is its first argument, if that is a column, and the
   names of its partial-state columns.
  */
  datatype AggExpr = AggExpr(
    name: string, functionName: string, distinct: bool, column: Option<string>, states: seq<string>)

  /** A terms aggregation with its sub-aggregations. */
  datatype Terms = Terms(field: string, subs: SubAggs)

  function MetricOf(functionName: string): Option<Metric> {
    if functionName == "count" then Some(Count)
    else if functionName == "sum" then Some(Sum)
    else if functionName == "min" then Some(Least)
    else if functionName == "max" then Some(Greatest)
    else if functionName == "avg" then Some(Average)
    else None
  }

  /** The aggregate functions that the index answers. */
  predicate IsSupported(functionName: string) {
    functionName == "count" || functionName == "sum" || functionName == "min" || functionName == "max" ||
    functionName == "avg"
  }

  ghost predicate AreNumbers(cells: seq<Value>) {
    forall v :: v in cells ==> v.Number?
  }

  /** SQL's answer for the function of that name, over the values that are not NULL. */
  ghost predicate IsAnswerOf(r: Option<real>, functionName: string, cells: seq<Value>) {
    || (functionName == "count" && r == Some(|cells| as real))
    || (functionName == "sum" && AreNumbers(cells) && r == if cells == [] then None else Some(Total(Numbers(cells))))
    || (functionName == "min" && AreNumbers(cells) && IsLeast(r, Numbers(cells)))
    || (functionName == "max" && AreNumbers(cells) && IsGreatest(r, Numbers(cells)))
    || (functionName == "avg" && AreNumbers(cells) &&
        r == if cells == [] then None else Some(Total(Numbers(cells)) / |cells| as real))
  }

  /** What the table has to show of a column for the function of that name. */
  ghost predicate AnswerableBy(functionName: string, docs: seq<Doc>, column: string) {
    Answerable(if functionName == "count" then Count else Sum, docs, column)
  }

  /** The functions with a metric are the supported ones, and the metric is the function. */
  lemma {:induction false} MetricIsFunction(functionName: string, r: Option<real>, cells: seq<Value>)
    ensures MetricOf(functionName).Some? <==> IsSupported(functionName)
    ensures IsSupported(functionName) ==>
      (IsSqlAnswer(r, MetricOf(functionName).value, cells) <==> IsAnswerOf(r, functionName, cells))
  {
  }

  /** Adds the sub-aggregations whose values are the partial states of one expression. */
  function InsertStates(subs: SubAggs, agg: AggExpr): Option<SubAggs> {
    if agg.distinct then None
    else
      var metric :- MetricOf(agg.functionName);
      if agg.column.None? then
        if metric.Count? then Some(subs) else None
      else if metric.Average? then
        if |agg.states| != 2 then None
        else
          Some(subs[agg.states[0] := SubAgg(Count, agg.column.value)]
                   [agg.states[1] := SubAgg(Sum, agg.column.value)])
      else if agg.states == [] then None
      else Some(subs[agg.states[0] := SubAgg(metric, agg.column.value)])
  }

  predicate Derivable(agg: AggExpr) {
    && !agg.distinct && IsSupported(agg.functionName)
    && (if agg.column.None? then agg.functionName == "count"
        else if agg.functionName == "avg" then |agg.states| == 2
        else agg.states != [])
  }

  /** Every state column of the expression has a sub-aggregation of its own, or none if it counts rows. */
  ghost predicate Serves(subs: SubAggs, agg: AggExpr) {
    && Derivable(agg)
    && (if agg.column.None? then forall n :: 0 <= n < |agg.states| ==> agg.states[n] !in subs
        else if agg.functionName == "avg" then
          && agg.states[0] in subs && subs[agg.states[0]] == SubAgg(Count, agg.column.value)
          && agg.states[1] in subs && subs[agg.states[1]] == SubAgg(Sum, agg.column.value)
        else
          && agg.states[0] in subs
          && subs[agg.states[0]] == SubAgg(MetricOf(agg.functionName).value, agg.column.value))
  }

  ghost predicate Disjoint(a: seq<string>, b: seq<string>) {
    forall name :: name in a ==> name !in b
  }

  /** No state name is used twice. */
  ghost predicate DistinctStates(aggs: seq<AggExpr>) {
    && (forall i, j :: 0 <= i < j < |aggs| ==> Disjoint(aggs[i].states, aggs[j].states))
    && (forall i :: 0 <= i < |aggs| && |aggs[i].states| == 2 ==> aggs[i].states[0] != aggs[i].states[1])
  }

  ghost predicate NamedBy(subs: SubAggs, aggs: seq<AggExpr>) {
    forall name :: name in subs ==> IsStateName(name, aggs)
  }

  ghost predicate IsStateName(name: string, aggs: seq<AggExpr>) {
    exists i :: 0 <= i < |aggs| && name in aggs[i].states
  }

  /** None unless there is one group column and every expression is supported. */
  method DeriveTantivyPartialAggregations(groups: seq<Option<string>>, aggs: seq<AggExpr>) returns (r: Option<Terms>)
    ensures r.Some? <==>
            |groups| == 1 && groups[0].Some? && forall i :: 0 <= i < |aggs| ==> Derivable(aggs[i])
    ensures r.Some? ==> groups[0] == Some(r.value.field)
    ensures r.Some? && DistinctStates(aggs) ==> forall i :: 0 <= i < |aggs| ==> Serves(r.value.subs, aggs[i])
  {
    if |groups| != 1 || groups[0].None? {
      return None;
    }
    var subs: SubAggs := map[];
    for n := 0 to |aggs|
      invariant forall i :: 0 <= i < n ==> Derivable(aggs[i])
      invariant NamedBy(subs, aggs[..n])
      invariant DistinctStates(aggs) ==> forall i :: 0 <= i < n ==> Serves(subs, aggs[i])
    {
      var longer :- InsertStates(subs, aggs[n]);
      if DistinctStates(aggs) {
        InsertServes(subs, aggs, n);
      }
      InsertNames(subs, aggs, n);
      subs := longer;
    }
    return Some(Terms(groups[0].value, subs));
  }

  /** Inserting touches no other name. */
  lemma {:induction false} InsertOnlyOwn(subs: SubAggs, agg: AggExpr, name: string)
    requires InsertStates(subs, agg).Some? && name !in agg.states
    ensures name in InsertStates(subs, agg).value <==> name in subs
    ensures name in subs ==> InsertStates(subs, agg).value[name] == subs[name]
  {
  }

  lemma {:induction false} InsertNames(subs: SubAggs, aggs: seq<AggExpr>, n: nat)
    requires n < |aggs| && NamedBy(subs, aggs[..n]) && InsertStates(subs, aggs[n]).Some?
    ensures NamedBy(InsertStates(subs, aggs[n]).value, aggs[..n + 1])
  {
    var longer := InsertStates(subs, aggs[n]).value;
    assert aggs[..n + 1][n] == aggs[n];
    forall name | name in longer
      ensures IsStateName(name, aggs[..n + 1])
    {
      if name !in aggs[n].states {
        InsertOnlyOwn(subs, aggs[n], name);
        assert IsStateName(name, aggs[..n]);
        var i :| 0 <= i < n && name in aggs[..n][i].states;
        assert aggs[..n + 1][i] == aggs[i];
      }
    }
  }

  lemma {:induction false} InsertServesOwn(subs: SubAggs, agg: AggExpr)
    requires InsertStates(subs, agg).Some?
    requires forall name :: name in agg.states ==> name !in subs
    requires |agg.states| == 2 ==> agg.states[0] != agg.states[1]
    ensures Serves(InsertStates(subs, agg).value, agg)
  {
  }

  lemma {:induction false} InsertKeepsServing(subs: SubAggs, agg: AggExpr, served: AggExpr)
    requires InsertStates(subs, agg).Some? && Serves(subs, served) && Disjoint(served.states, agg.states)
    ensures Serves(InsertStates(subs, agg).value, served)
  {
    forall name | name in served.states
      ensures name in InsertStates(subs, agg).value <==> name in subs
      ensures name in subs ==> InsertStates(subs, agg).value[name] == subs[name]
    {
      InsertOnlyOwn(subs, agg, name);
    }
  }

  lemma {:induction false} InsertServes(subs: SubAggs, aggs: seq<AggExpr>, n: nat)
    requires n < |aggs| && NamedBy(subs, aggs[..n]) && DistinctStates(aggs)
    requires InsertStates(subs, aggs[n]).Some?
    requires forall i :: 0 <= i < n ==> Serves(subs, aggs[i])
    ensures forall i :: 0 <= i < n + 1 ==> Serves(InsertStates(subs, aggs[n]).value, aggs[i])
  {
    forall i | 0 <= i < n
      ensures Serves(InsertStates(subs, aggs[n]).value, aggs[i])
    {
      InsertKeepsServing(subs, aggs[n], aggs[i]);
    }
    forall name | name in aggs[n].states
      ensures name !in subs
    {
      assert forall i :: 0 <= i < n ==> Disjoint(aggs[..n][i].states, aggs[n].states);
      assert !IsStateName(name, aggs[..n]);
    }
    InsertServesOwn(subs, aggs[n]);
  }

  // ---------------------------------------------------------------------------
  // Columns
  // ---------------------------------------------------------------------------

  predicate LooksLikeCount(name: string) {
    name == "doc_count" || "count(" <= name || "COUNT(" <= name
  }

  /** Those names: `doc_count` itself, and what a count is called in lower or upper case. */
  lemma {:induction false} CountNames(name: string)
    ensures LooksLikeCount(name) <==>
            name == "doc_count" || exists rest :: name == "count(" + rest || name == "COUNT(" + rest
  {
    if "count(" <= name {
      assert name == "count(" + name[6..];
    }
    if "COUNT(" <= name {
      assert name == "COUNT(" + name[6..];
    }
  }

  /** The number of documents answers `doc_count`, and a count for which there is no sub-aggregation. */
  predicate IsDocCountColumn(name: string, subs: SubAggs) {
    name == "doc_count" || (LooksLikeCount(name) && name !in subs)
  }

  /** The value of the sub-aggregation of that name; the metrics in use have no parts to ask for by a suffix. */
  function ExtractSubAggValue(bucket: Bucket, name: string, subs: SubAggs): Option<real> {
    if name in bucket.states && name in subs then MetricValue(subs[name].metric, bucket.states[name]) else None
  }

  function ColumnValue(name: string, bucket: Bucket, subs: SubAggs): Option<real> {
    if IsDocCountColumn(name, subs) then Some(bucket.docCount as real) else ExtractSubAggValue(bucket, name, subs)
  }

  /** The state columns of an expression in a bucket's row. */
  function StateCells(agg: AggExpr, bucket: Bucket, subs: SubAggs): seq<Option<real>> {
    seq(|agg.states|, n requires 0 <= n < |agg.states| => ColumnValue(agg.states[n], bucket, subs))
  }

  /** As many states as the function has. */
  predicate HasStates(agg: AggExpr) {
    |agg.states| == if agg.functionName == "avg" then 2 else 1
  }

  /** The columns of an expression over a column carry its states. */
  lemma {:induction false} CellsCarryStates(agg: AggExpr, docs: seq<Doc>, subs: SubAggs)
    requires Serves(subs, agg) && HasStates(agg) && agg.column.Some? && "doc_count" !in agg.states
    ensures StateCells(agg, BucketOf(docs, subs), subs) ==
            StateColumns(MetricOf(agg.functionName).value, StateOf(docs, agg.column.value))
  {
    forall n | 0 <= n < |agg.states|
      ensures ColumnValue(agg.states[n], BucketOf(docs, subs), subs) ==
              MetricValue(subs[agg.states[n]].metric, StateOf(docs, agg.column.value))
    {
      assert agg.states[n] in agg.states;
    }
  }

  /** The cell of a row count is right exactly when its name looks like a count; otherwise it is NULL. */
  lemma {:induction false} RowCountColumn(agg: AggExpr, docs: seq<Doc>, subs: SubAggs)
    requires Serves(subs, agg) && HasStates(agg) && agg.column.None?
    ensures StateCells(agg, BucketOf(docs, subs), subs) == [Some(|docs| as real)] <==> LooksLikeCount(agg.states[0])
    ensures !LooksLikeCount(agg.states[0]) ==> StateCells(agg, BucketOf(docs, subs), subs) == [None]
  {
    var cells := StateCells(agg, BucketOf(docs, subs), subs);
    assert cells[0] == ColumnValue(agg.states[0], BucketOf(docs, subs), subs);
    assert cells == [cells[0]];
  }

  /** The cells a final aggregate gets for one group, split by split. */
  function PartialCells(agg: AggExpr, subs: SubAggs, splits: seq<seq<Doc>>, groupField: string, key: Value)
    : seq<seq<Option<real>>>
  {
    if splits == [] then []
    else
      var results := Collect(splits[0], groupField, subs);
      (if key in results then [StateCells(agg, results[key], subs)] else []) +
      PartialCells(agg, subs, splits[1..], groupField, key)
  }

  lemma {:induction false} PartialCellsAreStateRows(
      agg: AggExpr, subs: SubAggs, splits: seq<seq<Doc>>, groupField: string, key: Value)
    requires Serves(subs, agg) && HasStates(agg) && agg.column.Some? && "doc_count" !in agg.states
    ensures PartialCells(agg, subs, splits, groupField, key) ==
            StateRows(MetricOf(agg.functionName).value, splits, groupField, key, agg.column.value)
  {
    if splits == [] {
    } else {
      PartialCellsAreStateRows(agg, subs, splits[1..], groupField, key);
      NoSuchGroup(splits[0], groupField, key);
      CellsCarryStates(agg, Group(splits[0], groupField, key), subs);
    }
  }

  /**
   The rewritten aggregate answers the query: for every group and every expression over a column, what the final
   aggregate makes of the partial cells of all splits is SQL's answer over the group, where the table shows the group
   column as indexed and the other one as the metric needs it, unless it is a sum over no value at all.
  */
  lemma {:induction false} RewrittenAggregateAnswersTheQuery(
      agg: AggExpr, metric: Metric, column: string, subs: SubAggs, splits: seq<seq<Doc>>, groupField: string,
      key: Value)
    requires Serves(subs, agg) && HasStates(agg) && "doc_count" !in agg.states
    requires MetricOf(agg.functionName) == Some(metric) && agg.column == Some(column)
    requires key in Keys(Flatten(splits), groupField)
    requires ShownAsIndexed(Flatten(splits), groupField) && AnswerableBy(agg.functionName, Flatten(splits), column)
    ensures PartialCells(agg, subs, splits, groupField, key) != []
    ensures AreStateRows(PartialCells(agg, subs, splits, groupField, key), metric)
    ensures IsAnswerOf(
              FinalValue(metric, PartialCells(agg, subs, splits, groupField, key)), agg.functionName,
              SqlCells(Flatten(splits), groupField, key, column)) <==>
            (agg.functionName == "sum" ==> SqlCells(Flatten(splits), groupField, key, column) != [])
  {
    PartialCellsAreStateRows(agg, subs, splits, groupField, key);
    TwoPhasesAnswerTheQuery(metric, splits, groupField, key, column);
    MetricIsFunction(
      agg.functionName, FinalValue(metric, PartialCells(agg, subs, splits, groupField, key)),
      SqlCells(Flatten(splits), groupField, key, column));
  }

  lemma {:induction false} OneMoreCount(n: nat, rest: seq<seq<Option<real>>>, m: nat)
    requires AreStateRows(rest, Count)
    requires if rest == [] then m == 0 else FinalValue(Count, rest) == Some(m as real)
    ensures AreStateRows([[Some(n as real)]] + rest, Count)
    ensures FinalValue(Count, [[Some(n as real)]] + rest) == Some((n + m) as real)
  {
    assert ([[Some(n as real)]] + rest)[1..] == rest;
  }

  lemma {:induction false} FirstRowCount(
      agg: AggExpr, subs: SubAggs, splits: seq<seq<Doc>>, groupField: string, key: Value)
    requires Serves(subs, agg) && HasStates(agg) && agg.column.None? && LooksLikeCount(agg.states[0]) && splits != []
    ensures var n := |Group(splits[0], groupField, key)|;
      PartialCells(agg, subs, splits, groupField, key) ==
      (if n == 0 then [] else [[Some(n as real)]]) + PartialCells(agg, subs, splits[1..], groupField, key)
  {
    NoSuchGroup(splits[0], groupField, key);
    RowCountColumn(agg, Group(splits[0], groupField, key), subs);
  }

  /** The state column of a row count, split by split, adds up to the number of documents of the group. */
  lemma {:induction false} RowCountsAddUp(
      agg: AggExpr, subs: SubAggs, splits: seq<seq<Doc>>, groupField: string, key: Value)
    requires Serves(subs, agg) && HasStates(agg) && agg.column.None? && LooksLikeCount(agg.states[0])
    ensures var cells := PartialCells(agg, subs, splits, groupField, key);
      && (cells == [] <==> Group(Flatten(splits), groupField, key) == [])
      && AreStateRows(cells, Count)
      && (cells != [] ==> FinalValue(Count, cells) == Some(|Group(Flatten(splits), groupField, key)| as real))
  {
    if splits == [] {
    } else {
      RowCountsAddUp(agg, subs, splits[1..], groupField, key);
      FirstRowCount(agg, subs, splits, groupField, key);
      var n, m := |Group(splits[0], groupField, key)|, |Group(Flatten(splits[1..]), groupField, key)|;
      assert |Group(Flatten(splits), groupField, key)| == n + m by {
        GroupAppend(splits[0], Flatten(splits[1..]), groupField, key);
      }
      var rest := PartialCells(agg, subs, splits[1..], groupField, key);
      if n == 0 {
        assert [] + rest == rest;
      } else {
        OneMoreCount(n, rest, m);
      }
    }
  }

  // ---------------------------------------------------------------------------
  // One phase
  // ---------------------------------------------------------------------------

  /** In one phase the sub-aggregation has the output name; an argument that is no column is passed over. */
  function InsertMetric(subs: SubAggs, agg: AggExpr): Option<SubAggs> {
    if agg.distinct then None
    else if agg.column.None? then Some(subs)
    else
      var metric :- MetricOf(agg.functionName);
      Some(subs[agg.name := SubAgg(metric, agg.column.value)])
  }

  ghost predicate ServesOutput(subs: SubAggs, agg: AggExpr) {
    if agg.column.None? then agg.name !in subs
    else
      && MetricOf(agg.functionName).Some?
      && agg.name in subs && subs[agg.name] == SubAgg(MetricOf(agg.functionName).value, agg.column.value)
  }

  ghost predicate DistinctOutputs(aggs: seq<AggExpr>) {
    forall i, j :: 0 <= i < j < |aggs| ==> aggs[i].name != aggs[j].name
  }

  ghost predicate NamedAsOutput(subs: SubAggs, aggs: seq<AggExpr>, n: nat) {
    forall name :: name in subs ==> exists i :: 0 <= i < n && i < |aggs| && aggs[i].name == name
  }

  lemma {:induction false} InsertServesOutputs(subs: SubAggs, aggs: seq<AggExpr>, n: nat)
    requires n < |aggs| && DistinctOutputs(aggs) && NamedAsOutput(subs, aggs, n)
    requires InsertMetric(subs, aggs[n]).Some?
    requires forall i :: 0 <= i < n ==> ServesOutput(subs, aggs[i])
    ensures forall i :: 0 <= i < n + 1 ==> ServesOutput(InsertMetric(subs, aggs[n]).value, aggs[i])
  {
    assert aggs[n].name !in subs;
  }

  method DeriveTantivyAggregations(groups: seq<Option<string>>, aggs: seq<AggExpr>) returns (r: Option<Terms>)
    ensures r.Some? <==>
            && |groups| == 1 && groups[0].Some?
            && forall i :: 0 <= i < |aggs| ==>
                 !aggs[i].distinct && (aggs[i].column.Some? ==> IsSupported(aggs[i].functionName))
    ensures r.Some? ==> groups[0] == Some(r.value.field)
    ensures r.Some? && DistinctOutputs(aggs) ==> forall i :: 0 <= i < |aggs| ==> ServesOutput(r.value.subs, aggs[i])
  {
    if |groups| != 1 || groups[0].None? {
      return None;
    }
    var subs: SubAggs := map[];
    for n := 0 to |aggs|
      invariant forall i :: 0 <= i < n ==>
        !aggs[i].distinct && (aggs[i].column.Some? ==> IsSupported(aggs[i].functionName))
      invariant NamedAsOutput(subs, aggs, n)
      invariant DistinctOutputs(aggs) ==> forall i :: 0 <= i < n ==> ServesOutput(subs, aggs[i])
    {
      var longer :- InsertMetric(subs, aggs[n]);
      if DistinctOutputs(aggs) {
        InsertServesOutputs(subs, aggs, n);
      }
      assert forall name :: name in longer ==> name in subs || name == aggs[n].name;
      subs := longer;
    }
    return Some(Terms(groups[0].value, subs));
  }

  /**
   One phase over a column: SQL's answer over the group, where the table shows the group column as indexed and the other
   one as the metric needs it, unless it is a sum over no value at all.
  */
  lemma {:induction false} OnePhaseAnswersTheQuery(
      agg: AggExpr, column: string, docs: seq<Doc>, groupField: string, key: Value, subs: SubAggs)
    requires ServesOutput(subs, agg) && agg.name != "doc_count"
    requires agg.column == Some(column)
    requires ShownAsIndexed(docs, groupField) && AnswerableBy(agg.functionName, docs, column)
    requires key in Collect(docs, groupField, subs)
    ensures IsAnswerOf(
              ColumnValue(agg.name, Collect(docs, groupField, subs)[key], subs), agg.functionName,
              SqlCells(docs, groupField, key, column)) <==>
            (agg.functionName == "sum" ==> SqlCells(docs, groupField, key, column) != [])
  {
    var metric := MetricOf(agg.functionName).value;
    BucketAnswersSql(metric, docs, groupField, key, column);
    MetricIsFunction(
      agg.functionName, ColumnValue(agg.name, Collect(docs, groupField, subs)[key], subs),
      SqlCells(docs, groupField, key, column));
  }

  /**
   One phase without a column argument: the number of documents, which is right for a row count, if its name looks
   like a count, and NULL otherwise.
  */
  lemma {:induction false} OnePhaseWithoutColumn(agg: AggExpr, docs: seq<Doc>, subs: SubAggs)
    requires ServesOutput(subs, agg) && agg.column.None?
    ensures ColumnValue(agg.name, BucketOf(docs, subs), subs) ==
            if LooksLikeCount(agg.name) then Some(|docs| as real) else None
  {
  }

  /** `sum(1)` in one phase is NULL over any documents. */
  lemma {:induction false} LiteralSumIsNull(docs: seq<Doc>)
    ensures var agg := AggExpr("sum(Int64(1))", "sum", false, None, ["sum(Int64(1))[sum]"]);
      InsertMetric(map[], agg) == Some(map[]) && ColumnValue(agg.name, BucketOf(docs, map[]), map[]) == None
  {
    assert "sum(Int64(1))"[0] == 's';
  }

  // ---------------------------------------------------------------------------
  // Documents
  // ---------------------------------------------------------------------------

  /** Every group of alternatives contains a call that is required anyway. */
  ghost predicate GroupsAreImplied(groups: seq<seq<Pair>>, raws: seq<Pair>) {
    forall g :: 0 <= g < |groups| ==> HasRequired(groups[g], raws)
  }

  ghost predicate HasRequired(group: seq<Pair>, raws: seq<Pair>) {
    exists i :: 0 <= i < |group| && group[i] in raws
  }

  function HitDoc(hits: set<Pair>): Doc {
    Doc(0, 0, map[], map[], hits, map[])
  }

  /** The calls on fields of the schema. */
  ghost function CallsOn(calls: seq<Pair>, schema: Schema): set<Pair> {
    set i | 0 <= i < |calls| && calls[i].0 in schema :: calls[i]
  }

  /** Every document of a split with that schema is seen by the aggregate if and only if it passes the scan. */
  ghost predicate SeesTheScan(schema: Schema, raws: seq<Pair>, nots: seq<Pair>, groups: seq<seq<Pair>>) {
    forall doc :: ValidDoc(schema, doc) ==>
      (FullTextMeaning(raws, nots, groups, RowOf(doc)) <==> FullTextMeaning(raws, [], [], RowOf(doc)))
  }

  predicate AllOn(calls: seq<Pair>, schema: Schema) {
    forall i :: 0 <= i < |calls| ==> calls[i].0 in schema
  }

  predicate NoneOn(calls: seq<Pair>, schema: Schema) {
    forall i :: 0 <= i < |calls| ==> calls[i].0 !in schema
  }

  /**
   A required call is on a field the split does not have, so that nothing passes at all; or the negated calls are all
   on such fields, and every group contains a required call.
  */
  ghost predicate DropsNothing(schema: Schema, raws: seq<Pair>, nots: seq<Pair>, groups: seq<seq<Pair>>) {
    !AllOn(raws, schema) || (NoneOn(nots, schema) && GroupsAreImplied(groups, raws))
  }

  lemma {:induction false} HitDocPasses(schema: Schema, raws: seq<Pair>, hits: set<Pair>)
    requires AllOn(raws, schema) && CallsOn(raws, schema) <= hits
    requires forall hit :: hit in hits ==> hit.0 in schema
    ensures ValidDoc(schema, HitDoc(hits)) && FullTextMeaning(raws, [], [], RowOf(HitDoc(hits)))
  {
    assert forall i :: 0 <= i < |raws| ==> raws[i] in CallsOn(raws, schema);
  }

  lemma {:induction false} SeenHasNoNegated(schema: Schema, raws: seq<Pair>, nots: seq<Pair>, groups: seq<seq<Pair>>)
    requires AllOn(raws, schema) && SeesTheScan(schema, raws, nots, groups)
    ensures NoneOn(nots, schema)
  {
    var hits := CallsOn(raws, schema) + CallsOn(nots, schema);
    assert forall i :: 0 <= i < |nots| && nots[i].0 in schema ==> nots[i] in hits;
    HitDocPasses(schema, raws, hits);
    assert FullTextMeaning(raws, nots, groups, RowOf(HitDoc(hits)));
    assert forall i :: 0 <= i < |nots| ==> nots[i] !in RowOf(HitDoc(hits)).hits;
  }

  lemma {:induction false} SeenHasRequired(schema: Schema, raws: seq<Pair>, nots: seq<Pair>, groups: seq<seq<Pair>>)
    requires AllOn(raws, schema) && SeesTheScan(schema, raws, nots, groups)
    ensures GroupsAreImplied(groups, raws)
  {
    var hits := CallsOn(raws, schema);
    HitDocPasses(schema, raws, hits);
    assert FullTextMeaning(raws, nots, groups, RowOf(HitDoc(hits)));
    forall g | 0 <= g < |groups|
      ensures HasRequired(groups[g], raws)
    {
      assert AnyHit(groups[g], RowOf(HitDoc(hits)));
      var i :| 0 <= i < |groups[g]| && groups[g][i] in hits;
      assert groups[g][i] in raws;
    }
  }

  lemma {:induction false} NothingIsDropped(
      schema: Schema, raws: seq<Pair>, nots: seq<Pair>, groups: seq<seq<Pair>>, doc: Doc)
    requires DropsNothing(schema, raws, nots, groups) && ValidDoc(schema, doc)
    requires FullTextMeaning(raws, [], [], RowOf(doc))
    ensures FullTextMeaning(raws, nots, groups, RowOf(doc))
  {
    forall g | 0 <= g < |groups|
      ensures AnyHit(groups[g], RowOf(doc))
    {
      assert AllOn(raws, schema);
      assert HasRequired(groups[g], raws);
      var i :| 0 <= i < |groups[g]| && groups[g][i] in raws;
    }
  }

  /**
   An aggregate takes over the required calls of the scan, but neither the negated calls nor the groups of
   alternatives. Exactly when that drops nothing on a split, it sees the documents of the scan of the split, whatever
   they are.
  */
  lemma {:induction false} AggregateSeesTheScanWhen(
      schema: Schema, raws: seq<Pair>, nots: seq<Pair>, groups: seq<seq<Pair>>)
    ensures SeesTheScan(schema, raws, nots, groups) <==> DropsNothing(schema, raws, nots, groups)
  {
    if DropsNothing(schema, raws, nots, groups) {
      forall doc | ValidDoc(schema, doc)
        ensures FullTextMeaning(raws, nots, groups, RowOf(doc)) <==> FullTextMeaning(raws, [], [], RowOf(doc))
      {
        if FullTextMeaning(raws, [], [], RowOf(doc)) {
          NothingIsDropped(schema, raws, nots, groups, doc);
        }
      }
    } else if SeesTheScan(schema, raws, nots, groups) {
      SeenHasNoNegated(schema, raws, nots, groups);
      SeenHasRequired(schema, raws, nots, groups);
    }
  }

  /**
   With the negated call `t: a`, or with the group of that call alone, a split with the field t has a document that the
   aggregate sees and the scan does not.
  */
  lemma {:induction false} DroppedCallsAreSeen()
    ensures var call, schema := ("t", "a"), map["t" := FieldEntry(StrField, true, true)];
      var hit, miss := HitDoc({call}), HitDoc({});
      && ValidDoc(schema, hit) && ValidDoc(schema, miss)
      && FullTextMeaning([], [], [], RowOf(hit)) && !FullTextMeaning([], [call], [], RowOf(hit))
      && FullTextMeaning([], [], [], RowOf(miss)) && !FullTextMeaning([], [], [[call]], RowOf(miss))
  {
    var call := ("t", "a");
    assert [call][0] == call && [[call]][0] == [call];
    assert !AnyHit([call], RowOf(HitDoc({})));
  }
}
