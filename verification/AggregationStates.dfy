/**
 Group-by aggregation over splits: the intermediate results of single splits, their merge, and what the merged
 numbers mean.
*/
module AggregationStates {
  import opened Prelude
  import opened Expressions
  import opened IndexQueries

  datatype Metric = Count | Sum | Least | Greatest | Average

  datatype SubAgg = SubAgg(metric: Metric, field: string)

  type SubAggs = map<string, SubAgg>

  /** The intermediate result of every metric, over exact numbers. */
  datatype State = State(count: nat, sum: real, least: Option<real>, greatest: Option<real>)

  /** The values of a column that are not NULL. */
  function Cells(docs: seq<Doc>, field: string): seq<Value> {
    if docs == [] then []
    else (if field in docs[0].values then [docs[0].values[field]] else []) + Cells(docs[1..], field)
  }

  /** The numbers among some values. */
  function Numbers(cells: seq<Value>): seq<real> {
    if cells == [] then [] else (if cells[0].Number? then [cells[0].n] else []) + Numbers(cells[1..])
  }

  function Total(numbers: seq<real>): real {
    if numbers == [] then 0.0 else numbers[0] + Total(numbers[1..])
  }

  function Lesser(a: Option<real>, b: Option<real>): Option<real> {
    if a.None? then b else if b.None? then a else if a.value <= b.value then a else b
  }

  function Greater(a: Option<real>, b: Option<real>): Option<real> {
    if a.None? then b else if b.None? then a else if a.value >= b.value then a else b
  }

  function LeastOf(numbers: seq<real>): Option<real> {
    if numbers == [] then None else Lesser(Some(numbers[0]), LeastOf(numbers[1..]))
  }

  function GreatestOf(numbers: seq<real>): Option<real> {
    if numbers == [] then None else Greater(Some(numbers[0]), GreatestOf(numbers[1..]))
  }

  /** What a split's collector accumulates for one field: it counts all values, and adds and compares numbers. */
  function StateOf(docs: seq<Doc>, field: string): State {
    var cells := Cells(docs, field);
    var numbers := Numbers(cells);
    State(|cells|, Total(numbers), LeastOf(numbers), GreatestOf(numbers))
  }

  function MergeStates(a: State, b: State): State {
    State(a.count + b.count, a.sum + b.sum, Lesser(a.least, b.least), Greater(a.greatest, b.greatest))
  }

  lemma {:induction false} MergeCommutes(a: State, b: State)
    ensures MergeStates(a, b) == MergeStates(b, a)
  {
  }

  lemma {:induction false} CellsAppend(a: seq<Doc>, b: seq<Doc>, field: string)
    ensures Cells(a + b, field) == Cells(a, field) + Cells(b, field)
  {
    if a == [] {
      assert a + b == b;
    } else {
      var first := if field in a[0].values then [a[0].values[field]] else [];
      assert (a + b)[0] == a[0] && (a + b)[1..] == a[1..] + b;
      CellsAppend(a[1..], b, field);
      assert Cells(a + b, field) == first + Cells(a[1..] + b, field);
      Associates(first, Cells(a[1..], field), Cells(b, field));
    }
  }

  lemma {:induction false} NumbersAppend(a: seq<Value>, b: seq<Value>)
    ensures Numbers(a + b) == Numbers(a) + Numbers(b)
  {
    if a == [] {
      assert a + b == b;
    } else {
      var first := if a[0].Number? then [a[0].n] else [];
      assert (a + b)[0] == a[0] && (a + b)[1..] == a[1..] + b;
      NumbersAppend(a[1..], b);
      assert Numbers(a + b) == first + Numbers(a[1..] + b);
      Associates(first, Numbers(a[1..]), Numbers(b));
    }
  }

  lemma {:induction false} TotalAppend(a: seq<real>, b: seq<real>)
    ensures Total(a + b) == Total(a) + Total(b)
  {
    if a == [] {
      assert a + b == b;
    } else {
      assert (a + b)[1..] == a[1..] + b;
      TotalAppend(a[1..], b);
    }
  }

  lemma {:induction false} LesserAssociates(a: Option<real>, b: Option<real>, c: Option<real>)
    ensures Lesser(Lesser(a, b), c) == Lesser(a, Lesser(b, c))
  {
  }

  lemma {:induction false} GreaterAssociates(a: Option<real>, b: Option<real>, c: Option<real>)
    ensures Greater(Greater(a, b), c) == Greater(a, Greater(b, c))
  {
  }

  lemma {:induction false} LeastAppend(a: seq<real>, b: seq<real>)
    ensures LeastOf(a + b) == Lesser(LeastOf(a), LeastOf(b))
  {
    if a == [] {
      assert a + b == b;
    } else {
      assert (a + b)[1..] == a[1..] + b;
      LeastAppend(a[1..], b);
      LesserAssociates(Some(a[0]), LeastOf(a[1..]), LeastOf(b));
    }
  }

  lemma {:induction false} GreatestAppend(a: seq<real>, b: seq<real>)
    ensures GreatestOf(a + b) == Greater(GreatestOf(a), GreatestOf(b))
  {
    if a == [] {
      assert a + b == b;
    } else {
      assert (a + b)[1..] == a[1..] + b;
      GreatestAppend(a[1..], b);
      GreaterAssociates(Some(a[0]), GreatestOf(a[1..]), GreatestOf(b));
    }
  }

  /** Merging the states of two lots of documents is accumulating over both. */
  lemma {:induction false} StateAppend(a: seq<Doc>, b: seq<Doc>, field: string)
    ensures StateOf(a + b, field) == MergeStates(StateOf(a, field), StateOf(b, field))
  {
    var m, n := Numbers(Cells(a, field)), Numbers(Cells(b, field));
    CellsAppend(a, b, field);
    NumbersAppend(Cells(a, field), Cells(b, field));
    TotalAppend(m, n);
    LeastAppend(m, n);
    GreatestAppend(m, n);
  }

  // ---------------------------------------------------------------------------
  // Buckets
  // ---------------------------------------------------------------------------

  predicate InGroup(doc: Doc, groupField: string, key: Value) {
    groupField in doc.values && doc.values[groupField] == key
  }

  function Group(docs: seq<Doc>, groupField: string, key: Value): seq<Doc> {
    if docs == [] then []
    else (if InGroup(docs[0], groupField, key) then [docs[0]] else []) + Group(docs[1..], groupField, key)
  }

  function Keys(docs: seq<Doc>, groupField: string): set<Value> {
    set i | 0 <= i < |docs| && groupField in docs[i].values :: docs[i].values[groupField]
  }

  /** The documents of one group: how many, and the state of each sub-aggregation. */
  datatype Bucket = Bucket(docCount: nat, states: map<string, State>)

  type Results = map<Value, Bucket>

  function BucketOf(docs: seq<Doc>, subs: SubAggs): Bucket {
    Bucket(|docs|, map name | name in subs :: StateOf(docs, subs[name].field))
  }

  /** The intermediate results of a terms aggregation over some documents. */
  function Collect(docs: seq<Doc>, groupField: string, subs: SubAggs): Results {
    map key | key in Keys(docs, groupField) :: BucketOf(Group(docs, groupField, key), subs)
  }

  function MergeBuckets(a: Bucket, b: Bucket): Bucket {
    Bucket(
      a.docCount + b.docCount,
      map name | name in a.states && name in b.states :: MergeStates(a.states[name], b.states[name]))
  }

  function MergeResults(a: Results, b: Results): Results {
    map key | key in a.Keys + b.Keys ::
      if key !in b then a[key] else if key !in a then b[key] else MergeBuckets(a[key], b[key])
  }

  lemma {:induction false} GroupAppend(a: seq<Doc>, b: seq<Doc>, groupField: string, key: Value)
    ensures Group(a + b, groupField, key) == Group(a, groupField, key) + Group(b, groupField, key)
  {
    if a == [] {
      assert a + b == b;
    } else {
      var first := if InGroup(a[0], groupField, key) then [a[0]] else [];
      assert (a + b)[0] == a[0] && (a + b)[1..] == a[1..] + b;
      GroupAppend(a[1..], b, groupField, key);
      assert Group(a + b, groupField, key) == first + Group(a[1..] + b, groupField, key);
      Associates(first, Group(a[1..], groupField, key), Group(b, groupField, key));
    }
  }

  lemma {:induction false} NoSuchGroup(docs: seq<Doc>, groupField: string, key: Value)
    ensures Group(docs, groupField, key) == [] <==> key !in Keys(docs, groupField)
  {
    if docs == [] {
    } else {
      NoSuchGroup(docs[1..], groupField, key);
      KeysAppend([docs[0]], docs[1..], groupField);
      assert docs == [docs[0]] + docs[1..];
    }
  }

  lemma {:induction false} KeysAppend(a: seq<Doc>, b: seq<Doc>, groupField: string)
    ensures Keys(a + b, groupField) == Keys(a, groupField) + Keys(b, groupField)
  {
    assert forall i :: 0 <= i < |a| ==> (a + b)[i] == a[i];
    assert forall i :: 0 <= i < |b| ==> (a + b)[|a| + i] == b[i];
    assert forall i :: |a| <= i < |a| + |b| ==> (a + b)[i] == b[i - |a|];
  }

  lemma {:induction false} BucketAppend(a: seq<Doc>, b: seq<Doc>, subs: SubAggs)
    ensures BucketOf(a + b, subs) == MergeBuckets(BucketOf(a, subs), BucketOf(b, subs))
  {
    forall name | name in subs
      ensures StateOf(a + b, subs[name].field) ==
              MergeStates(StateOf(a, subs[name].field), StateOf(b, subs[name].field))
    {
      StateAppend(a, b, subs[name].field);
    }
  }

  lemma {:induction false} GroupBucketAppend(a: seq<Doc>, b: seq<Doc>, groupField: string, key: Value, subs: SubAggs)
    ensures BucketOf(Group(a + b, groupField, key), subs) ==
            MergeBuckets(BucketOf(Group(a, groupField, key), subs), BucketOf(Group(b, groupField, key), subs))
  {
    GroupAppend(a, b, groupField, key);
    BucketAppend(Group(a, groupField, key), Group(b, groupField, key), subs);
  }

  lemma {:induction false} GroupOfOneSide(a: seq<Doc>, b: seq<Doc>, groupField: string, key: Value)
    ensures key !in Keys(b, groupField) ==> Group(a + b, groupField, key) == Group(a, groupField, key)
    ensures key !in Keys(a, groupField) ==> Group(a + b, groupField, key) == Group(b, groupField, key)
  {
    GroupAppend(a, b, groupField, key);
    NoSuchGroup(a, groupField, key);
    NoSuchGroup(b, groupField, key);
  }

  /** Merging the results of two splits is aggregating over both. */
  lemma {:induction false} CollectAppend(a: seq<Doc>, b: seq<Doc>, groupField: string, subs: SubAggs)
    ensures MergeResults(Collect(a, groupField, subs), Collect(b, groupField, subs)) ==
            Collect(a + b, groupField, subs)
  {
    var left, right := Collect(a, groupField, subs), Collect(b, groupField, subs);
    var whole := Collect(a + b, groupField, subs);
    KeysAppend(a, b, groupField);
    assert MergeResults(left, right).Keys == whole.Keys;
    forall key | key in whole
      ensures MergeResults(left, right)[key] == whole[key]
    {
      GroupBucketAppend(a, b, groupField, key, subs);
      GroupOfOneSide(a, b, groupField, key);
    }
  }

  lemma {:induction false} MergeResultsCommutes(a: Results, b: Results)
    ensures MergeResults(a, b) == MergeResults(b, a)
  {
    forall key | key in a && key in b
      ensures MergeBuckets(a[key], b[key]) == MergeBuckets(b[key], a[key])
    {
      forall name | name in a[key].states && name in b[key].states
        ensures MergeStates(a[key].states[name], b[key].states[name]) ==
                MergeStates(b[key].states[name], a[key].states[name])
      {
        MergeCommutes(a[key].states[name], b[key].states[name]);
      }
    }
    assert MergeResults(a, b).Keys == MergeResults(b, a).Keys;
  }

  lemma {:induction false} CollectCommutes(a: seq<Doc>, b: seq<Doc>, groupField: string, subs: SubAggs)
    ensures Collect(a + b, groupField, subs) == Collect(b + a, groupField, subs)
  {
    CollectAppend(a, b, groupField, subs);
    CollectAppend(b, a, groupField, subs);
    MergeResultsCommutes(Collect(a, groupField, subs), Collect(b, groupField, subs));
  }

  ghost predicate AreResultsOf(partials: seq<Results>, splits: seq<seq<Doc>>, groupField: string, subs: SubAggs) {
    |partials| == |splits| && forall i :: 0 <= i < |splits| ==> partials[i] == Collect(splits[i], groupField, subs)
  }

  /** The last result is popped, and the others are merged into it in order: the answer over all splits. */
  method MergeIntermediateAggResults(
      partials: seq<Results>, ghost splits: seq<seq<Doc>>, ghost groupField: string, ghost subs: SubAggs)
    returns (merged: Results)
    requires AreResultsOf(partials, splits, groupField, subs)
    ensures merged == Collect(Flatten(splits), groupField, subs)
  {
    if partials == [] {
      return map[];
    }
    var last := |partials| - 1;
    merged := partials[last];
    assert splits[last] + Flatten(splits[..0]) == splits[last];
    for n := 0 to last
      invariant merged == Collect(splits[last] + Flatten(splits[..n]), groupField, subs)
    {
      merged := MergeResults(merged, partials[n]);
      CollectAppend(splits[last] + Flatten(splits[..n]), splits[n], groupField, subs);
      assert splits[..n + 1] == splits[..n] + [splits[n]];
      FlattenSnoc(splits[..n], splits[n]);
      assert splits[last] + Flatten(splits[..n]) + splits[n] == splits[last] + (Flatten(splits[..n]) + splits[n]);
    }
    assert splits == splits[..last] + [splits[last]];
    FlattenSnoc(splits[..last], splits[last]);
    CollectCommutes(splits[last], Flatten(splits[..last]), groupField, subs);
  }

  lemma {:induction false} CollectToFront(x: seq<Doc>, y: seq<Doc>, z: seq<Doc>, groupField: string, subs: SubAggs)
    ensures Collect(x + (y + z), groupField, subs) == Collect(y + (x + z), groupField, subs)
  {
    assert x + (y + z) == (x + y) + z && y + (x + z) == (y + x) + z;
    CollectAppend(x + y, z, groupField, subs);
    CollectAppend(y + x, z, groupField, subs);
    CollectCommutes(x, y, groupField, subs);
  }

  lemma {:induction false} FlattenToFront(before: seq<seq<Doc>>, split: seq<Doc>, after: seq<seq<Doc>>)
    ensures Flatten(before + [split] + after) == Flatten(before) + (split + Flatten(after))
    ensures Flatten(before + after) == Flatten(before) + Flatten(after)
  {
    assert before + [split] + after == before + ([split] + after);
    FlattenAppend(before, [split] + after);
    FlattenAppend(before, after);
    assert ([split] + after)[1..] == after;
  }

  /** The order of the splits does not matter. */
  lemma {:induction false} AnySplitOrder(a: seq<seq<Doc>>, b: seq<seq<Doc>>, groupField: string, subs: SubAggs)
    requires multiset(a) == multiset(b)
    ensures Collect(Flatten(a), groupField, subs) == Collect(Flatten(b), groupField, subs)
  {
    if a == [] {
      assert |b| == |multiset(b)| == 0;
    } else {
      assert a[0] in multiset(b);
      var k :| 0 <= k < |b| && b[k] == a[0];
      var before, after := b[..k], b[k + 1..];
      SameWithoutFirst(a, b, k);
      AnySplitOrder(a[1..], before + after, groupField, subs);
      assert b == before + [a[0]] + after;
      FlattenToFront(before, a[0], after);
      CollectToFront(Flatten(before), a[0], Flatten(after), groupField, subs);
      CollectAppend(a[0], Flatten(a[1..]), groupField, subs);
      CollectAppend(a[0], Flatten(before + after), groupField, subs);
    }
  }

  lemma {:induction false} SameWithoutFirst(a: seq<seq<Doc>>, b: seq<seq<Doc>>, k: nat)
    requires a != [] && k < |b| && b[k] == a[0] && multiset(a) == multiset(b)
    ensures multiset(a[1..]) == multiset(b[..k] + b[k + 1..])
  {
    assert a == [a[0]] + a[1..];
    assert b == b[..k] + [b[k]] + b[k + 1..];
    assert multiset(a[1..]) == multiset(a) - multiset{a[0]};
    assert multiset(b[..k] + b[k + 1..]) == multiset(b) - multiset{b[k]};
  }

  // ---------------------------------------------------------------------------
  // What the numbers mean
  // ---------------------------------------------------------------------------

  ghost predicate IsLeast(r: Option<real>, numbers: seq<real>) {
    if numbers == [] then r.None?
    else r.Some? && r.value in numbers && forall v :: v in numbers ==> r.value <= v
  }

  ghost predicate IsGreatest(r: Option<real>, numbers: seq<real>) {
    if numbers == [] then r.None?
    else r.Some? && r.value in numbers && forall v :: v in numbers ==> r.value >= v
  }

  /** Anything can be counted; the other metrics are of numbers. */
  ghost predicate MetricFits(metric: Metric, cells: seq<Value>) {
    metric.Count? || forall v :: v in cells ==> v.Number?
  }

  /** The answer of SQL: NULLs do not take part, and only counts are defined without any value. */
  ghost predicate IsSqlAnswer(r: Option<real>, metric: Metric, cells: seq<Value>) {
    && MetricFits(metric, cells)
    && (match metric
        case Count => r == Some(|cells| as real)
        case Sum => r == if cells == [] then None else Some(Total(Numbers(cells)))
        case Least => IsLeast(r, Numbers(cells))
        case Greatest => IsGreatest(r, Numbers(cells))
        case Average => r == if cells == [] then None else Some(Total(Numbers(cells)) / |cells| as real))
  }

  /** The value of a metric once all states are merged. */
  function MetricValue(metric: Metric, state: State): Option<real> {
    match metric
    case Count => Some(state.count as real)
    case Sum => Some(state.sum)
    case Least => state.least
    case Greatest => state.greatest
    case Average => if state.count == 0 then None else Some(state.sum / state.count as real)
  }

  lemma {:induction false} LeastMeaning(numbers: seq<real>)
    ensures IsLeast(LeastOf(numbers), numbers)
  {
    if numbers == [] {
    } else {
      LeastMeaning(numbers[1..]);
      assert numbers == [numbers[0]] + numbers[1..];
    }
  }

  lemma {:induction false} GreatestMeaning(numbers: seq<real>)
    ensures IsGreatest(GreatestOf(numbers), numbers)
  {
    if numbers == [] {
    } else {
      GreatestMeaning(numbers[1..]);
      assert numbers == [numbers[0]] + numbers[1..];
    }
  }

  lemma {:induction false} AllAreNumbers(cells: seq<Value>)
    requires forall v :: v in cells ==> v.Number?
    ensures |Numbers(cells)| == |cells|
  {
    if cells == [] {
    } else {
      assert cells[0] in cells;
      AllAreNumbers(cells[1..]);
    }
  }

  /** The merged value is SQL's answer, except that a sum without any number is 0 where SQL has NULL. */
  lemma {:induction false} MetricIsSqlAnswer(metric: Metric, docs: seq<Doc>, field: string)
    requires MetricFits(metric, Cells(docs, field))
    ensures IsSqlAnswer(MetricValue(metric, StateOf(docs, field)), metric, Cells(docs, field)) <==>
            (metric.Sum? ==> Cells(docs, field) != [])
  {
    if !metric.Count? {
      AllAreNumbers(Cells(docs, field));
    }
    LeastMeaning(Numbers(Cells(docs, field)));
    GreatestMeaning(Numbers(Cells(docs, field)));
  }

  // ---------------------------------------------------------------------------
  // Two phases
  // ---------------------------------------------------------------------------

  /** The partial-state columns of a group's row; an average is carried as a count and a sum. */
  function StateColumns(metric: Metric, state: State): seq<Option<real>> {
    match metric
    case Count => [Some(state.count as real)]
    case Sum => [Some(state.sum)]
    case Least => [state.least]
    case Greatest => [state.greatest]
    case Average => [Some(state.count as real), Some(state.sum)]
  }

  /** The final aggregate adds, or compares, the values of a state column that are not NULL. */
  function Plus(a: Option<real>, b: Option<real>): Option<real> {
    if a.None? then b else if b.None? then a else Some(a.value + b.value)
  }

  function Combine(metric: Metric, a: seq<Option<real>>, b: seq<Option<real>>): seq<Option<real>>
    requires |a| == |b| == if metric.Average? then 2 else 1
  {
    match metric
    case Count => [Plus(a[0], b[0])]
    case Sum => [Plus(a[0], b[0])]
    case Least => [Lesser(a[0], b[0])]
    case Greatest => [Greater(a[0], b[0])]
    case Average => [Plus(a[0], b[0]), Plus(a[1], b[1])]
  }

  ghost predicate AreStateRows(rows: seq<seq<Option<real>>>, metric: Metric) {
    forall i :: 0 <= i < |rows| ==> |rows[i]| == if metric.Average? then 2 else 1
  }

  function CombineAll(metric: Metric, rows: seq<seq<Option<real>>>): (columns: seq<Option<real>>)
    requires rows != [] && AreStateRows(rows, metric)
    ensures |columns| == if metric.Average? then 2 else 1
  {
    if |rows| == 1 then rows[0]
    else
      assert AreStateRows(rows[1..], metric);
      Combine(metric, rows[0], CombineAll(metric, rows[1..]))
  }

  /** The final value of one group, from the rows of all partitions that have the group. */
  function FinalValue(metric: Metric, rows: seq<seq<Option<real>>>): Option<real>
    requires rows != [] && AreStateRows(rows, metric)
  {
    var columns := CombineAll(metric, rows);
    if !metric.Average? then columns[0]
    else if columns[0].None? || columns[1].None? || columns[0].value == 0.0 then None
    else Some(columns[1].value / columns[0].value)
  }

  /** The rows of one group, split by split; a split without the group has none. */
  function StateRows(metric: Metric, splits: seq<seq<Doc>>, groupField: string, key: Value, field: string)
    : (rows: seq<seq<Option<real>>>)
    ensures AreStateRows(rows, metric)
  {
    if splits == [] then []
    else
      var group := Group(splits[0], groupField, key);
      (if group == [] then [] else [StateColumns(metric, StateOf(group, field))]) +
      StateRows(metric, splits[1..], groupField, key, field)
  }

  lemma {:induction false} ColumnsCombine(metric: Metric, a: State, b: State)
    ensures Combine(metric, StateColumns(metric, a), StateColumns(metric, b)) ==
            StateColumns(metric, MergeStates(a, b))
  {
  }

  /** Combining the rows of a group gives the state columns of the group over all splits. */
  lemma {:induction false} RowsCombine(
      metric: Metric, splits: seq<seq<Doc>>, groupField: string, key: Value, field: string)
    ensures StateRows(metric, splits, groupField, key, field) == [] <==> Group(Flatten(splits), groupField, key) == []
    ensures StateRows(metric, splits, groupField, key, field) != [] ==>
      CombineAll(metric, StateRows(metric, splits, groupField, key, field)) ==
      StateColumns(metric, StateOf(Group(Flatten(splits), groupField, key), field))
  {
    if splits == [] {
    } else {
      RowsCombine(metric, splits[1..], groupField, key, field);
      var group, rest := Group(splits[0], groupField, key), Group(Flatten(splits[1..]), groupField, key);
      var rows := StateRows(metric, splits[1..], groupField, key, field);
      GroupAppend(splits[0], Flatten(splits[1..]), groupField, key);
      StateAppend(group, rest, field);
      if group == [] {
        assert [] + rest == rest;
        assert StateRows(metric, splits, groupField, key, field) == rows;
      } else {
        var first := StateColumns(metric, StateOf(group, field));
        assert ([first] + rows)[1..] == rows;
        ColumnsCombine(metric, StateOf(group, field), StateOf(rest, field));
        if rest == [] {
          assert group + [] == group;
        }
      }
    }
  }

  /**
   What is collected from one document, and added up of one value. With the laws for two lots above, this is all there
   is to groups, cells, numbers and totals.
  */
  lemma {:induction false} OneDocument(doc: Doc, groupField: string, key: Value, field: string)
    ensures Group([doc], groupField, key) ==
            if groupField in doc.values && doc.values[groupField] == key then [doc] else []
    ensures Cells([doc], field) == if field in doc.values then [doc.values[field]] else []
    ensures Cells([], field) == [] && Group([], groupField, key) == [] && Numbers([]) == []
  {
  }

  lemma {:induction false} OneNumber(v: Value)
    ensures Numbers([v]) == if v.Number? then [v.n] else []
    ensures v.Number? ==> Total([v.n]) == v.n
    ensures Total([]) == 0.0
  {
    if v.Number? {
      assert [v.n][1..] == [];
    }
  }

  // ---------------------------------------------------------------------------
  // What SQL sees
  // ---------------------------------------------------------------------------

  /** The documents with the cells the table shows in place of the values of the index. */
  function View(docs: seq<Doc>): (view: seq<Doc>)
    ensures |view| == |docs| && forall i :: 0 <= i < |docs| ==> view[i] == docs[i].(values := docs[i].shown)
  {
    seq(|docs|, i requires 0 <= i < |docs| => docs[i].(values := docs[i].shown))
  }

  predicate SameIn(doc: Doc, column: string) {
    && (column in doc.shown <==> column in doc.values)
    && (column in doc.values ==> doc.shown[column] == doc.values[column])
  }

  /** The table shows the column as it is in the index. */
  ghost predicate ShownAsIndexed(docs: seq<Doc>, column: string) {
    forall i :: 0 <= i < |docs| ==> SameIn(docs[i], column)
  }

  /**
   What the metric needs of its column: for a count, that nothing is NULL in the table only or in the index only; for
   the others, numbers that are shown as indexed.
  */
  ghost predicate Answerable(metric: Metric, docs: seq<Doc>, field: string) {
    if metric.Count? then forall i :: 0 <= i < |docs| ==> (field in docs[i].shown <==> field in docs[i].values)
    else
      && ShownAsIndexed(docs, field)
      && forall i :: 0 <= i < |docs| && field in docs[i].values ==> docs[i].values[field].Number?
  }

  /** The groups of the table, that for NULL apart, are those of the index. */
  lemma {:induction false} ViewHasKeys(docs: seq<Doc>, groupField: string)
    requires ShownAsIndexed(docs, groupField)
    ensures Keys(View(docs), groupField) == Keys(docs, groupField)
  {
    assert forall i :: 0 <= i < |docs| ==> SameIn(docs[i], groupField) && View(docs)[i].values == docs[i].shown;
  }

  /** The values SQL aggregates: one column of one group of the table. */
  function SqlCells(docs: seq<Doc>, groupField: string, key: Value, field: string): seq<Value> {
    Cells(Group(View(docs), groupField, key), field)
  }

  /** A group of the table is as large as that of the index. */
  lemma {:induction false} ViewGroupSize(docs: seq<Doc>, groupField: string, key: Value)
    requires ShownAsIndexed(docs, groupField)
    ensures |Group(View(docs), groupField, key)| == |Group(docs, groupField, key)|
  {
    if docs == [] {
    } else {
      ViewGroupSize(docs[1..], groupField, key);
      assert View(docs)[1..] == View(docs[1..]);
      assert SameIn(docs[0], groupField);
    }
  }

  lemma {:induction false} CellsOfGroup(docs: seq<Doc>, groupField: string, key: Value, field: string)
    requires docs != []
    ensures Cells(Group(docs, groupField, key), field) ==
            (if InGroup(docs[0], groupField, key) && field in docs[0].values then [docs[0].values[field]] else []) +
            Cells(Group(docs[1..], groupField, key), field)
  {
    var rest := Group(docs[1..], groupField, key);
    if InGroup(docs[0], groupField, key) {
      assert ([docs[0]] + rest)[1..] == rest;
    } else {
      assert [] + rest == rest;
    }
  }

  lemma {:induction false} GroupIsNumeric(docs: seq<Doc>, groupField: string, key: Value, field: string)
    requires forall i :: 0 <= i < |docs| && field in docs[i].values ==> docs[i].values[field].Number?
    ensures forall v :: v in Cells(Group(docs, groupField, key), field) ==> v.Number?
  {
    if docs == [] {
    } else {
      GroupIsNumeric(docs[1..], groupField, key, field);
      CellsOfGroup(docs, groupField, key, field);
    }
  }

  /** A group of the table has the values of the bucket, or as many when they are only counted. */
  lemma {:induction false} ViewOfGroup(
      metric: Metric, docs: seq<Doc>, groupField: string, key: Value, field: string)
    requires ShownAsIndexed(docs, groupField) && Answerable(metric, docs, field)
    ensures |SqlCells(docs, groupField, key, field)| == |Cells(Group(docs, groupField, key), field)|
    ensures !metric.Count? ==> SqlCells(docs, groupField, key, field) == Cells(Group(docs, groupField, key), field)
  {
    if docs == [] {
    } else {
      ViewOfGroup(metric, docs[1..], groupField, key, field);
      assert View(docs)[1..] == View(docs[1..]);
      assert SameIn(docs[0], groupField) && (!metric.Count? ==> SameIn(docs[0], field));
      CellsOfGroup(View(docs), groupField, key, field);
      CellsOfGroup(docs, groupField, key, field);
    }
  }

  /** The merged value of a bucket is SQL's answer over the group of the table, or a sum over nothing. */
  lemma {:induction false} BucketAnswersSql(
      metric: Metric, docs: seq<Doc>, groupField: string, key: Value, field: string)
    requires ShownAsIndexed(docs, groupField) && Answerable(metric, docs, field)
    ensures IsSqlAnswer(
              MetricValue(metric, StateOf(Group(docs, groupField, key), field)), metric,
              SqlCells(docs, groupField, key, field)) <==>
            (metric.Sum? ==> SqlCells(docs, groupField, key, field) != [])
  {
    ViewOfGroup(metric, docs, groupField, key, field);
    if !metric.Count? {
      GroupIsNumeric(docs, groupField, key, field);
    }
    MetricIsSqlAnswer(metric, Group(docs, groupField, key), field);
  }

  /**
   Two phases answer the query: for every group of the table, the final value over the partial rows of all splits is
   SQL's answer over the group's rows, provided the table shows the group column as indexed and the other one as the
   metric needs it. Only for a sum is a group without any value an exception.
  */
  lemma {:induction false} TwoPhasesAnswerTheQuery(
      metric: Metric, splits: seq<seq<Doc>>, groupField: string, key: Value, field: string)
    requires key in Keys(Flatten(splits), groupField)
    requires ShownAsIndexed(Flatten(splits), groupField) && Answerable(metric, Flatten(splits), field)
    ensures StateRows(metric, splits, groupField, key, field) != []
    ensures FinalValue(metric, StateRows(metric, splits, groupField, key, field)) ==
            MetricValue(metric, StateOf(Group(Flatten(splits), groupField, key), field))
    ensures IsSqlAnswer(
              FinalValue(metric, StateRows(metric, splits, groupField, key, field)), metric,
              SqlCells(Flatten(splits), groupField, key, field)) <==>
            (metric.Sum? ==> SqlCells(Flatten(splits), groupField, key, field) != [])
  {
    NoSuchGroup(Flatten(splits), groupField, key);
    RowsCombine(metric, splits, groupField, key, field);
    BucketAnswersSql(metric, Flatten(splits), groupField, key, field);
  }

  // ---------------------------------------------------------------------------
  // Documents without a group value
  // ---------------------------------------------------------------------------

  /** The documents in the buckets of some keys. */
  function DocTotal(results: Results, keys: seq<Value>): nat
    requires forall i :: 0 <= i < |keys| ==> keys[i] in results
  {
    if keys == [] then 0
    else
      assert forall i :: 0 <= i < |keys[1..]| ==> keys[1..][i] == keys[i + 1];
      results[keys[0]].docCount + DocTotal(results, keys[1..])
  }

  function CountIn(docs: seq<Doc>, groupField: string, keys: seq<Value>): nat {
    if docs == [] then 0
    else
      (if groupField in docs[0].values && docs[0].values[groupField] in keys then 1 else 0) +
      CountIn(docs[1..], groupField, keys)
  }

  lemma {:induction false} CountInCons(docs: seq<Doc>, groupField: string, key: Value, keys: seq<Value>)
    requires key !in keys
    ensures CountIn(docs, groupField, [key] + keys) == |Group(docs, groupField, key)| + CountIn(docs, groupField, keys)
  {
    if docs == [] {
    } else {
      CountInCons(docs[1..], groupField, key, keys);
    }
  }

  lemma {:induction false} CountInNone(docs: seq<Doc>, groupField: string)
    ensures CountIn(docs, groupField, []) == 0
  {
    if docs == [] {
    } else {
      CountInNone(docs[1..], groupField);
    }
  }

  lemma {:induction false} TotalIsCount(docs: seq<Doc>, groupField: string, subs: SubAggs, keys: seq<Value>)
    requires forall i :: 0 <= i < |keys| ==> keys[i] in Collect(docs, groupField, subs)
    requires forall i, j :: 0 <= i < j < |keys| ==> keys[i] != keys[j]
    ensures DocTotal(Collect(docs, groupField, subs), keys) == CountIn(docs, groupField, keys)
  {
    if keys == [] {
      CountInNone(docs, groupField);
    } else {
      assert forall i :: 0 <= i < |keys[1..]| ==> keys[1..][i] == keys[i + 1];
      TotalIsCount(docs, groupField, subs, keys[1..]);
      CountInCons(docs, groupField, keys[0], keys[1..]);
      assert keys == [keys[0]] + keys[1..];
    }
  }

  lemma {:induction false} CountInAll(docs: seq<Doc>, groupField: string, keys: seq<Value>)
    requires forall key :: key in Keys(docs, groupField) ==> key in keys
    ensures CountIn(docs, groupField, keys) <= |docs|
    ensures CountIn(docs, groupField, keys) == |docs| <==>
            forall i :: 0 <= i < |docs| ==> groupField in docs[i].values
  {
    if docs == [] {
    } else {
      KeysAppend([docs[0]], docs[1..], groupField);
      assert docs == [docs[0]] + docs[1..];
      CountInAll(docs[1..], groupField, keys);
      assert groupField in docs[0].values ==> [docs[0]][0].values[groupField] in Keys([docs[0]], groupField);
      assert forall i :: 1 <= i < |docs| ==> docs[i] == docs[1..][i - 1];
    }
  }

  /**
   Documents without a group value are in no bucket, where SQL has a group for NULL: the buckets together hold all
   documents if and only if every document has a group value.
  */
  lemma {:induction false} BucketsHoldAllWhen(docs: seq<Doc>, groupField: string, subs: SubAggs, keys: seq<Value>)
    requires forall i :: 0 <= i < |keys| ==> keys[i] in Collect(docs, groupField, subs)
    requires forall i, j :: 0 <= i < j < |keys| ==> keys[i] != keys[j]
    requires forall key :: key in Collect(docs, groupField, subs) ==> key in keys
    ensures DocTotal(Collect(docs, groupField, subs), keys) == |docs| <==>
            forall i :: 0 <= i < |docs| ==> groupField in docs[i].values
  {
    TotalIsCount(docs, groupField, subs, keys);
    CountInAll(docs, groupField, keys);
  }

  // ---------------------------------------------------------------------------
  // Wrong answers
  // ---------------------------------------------------------------------------

  /** The sum of a group whose only document has no value is 0, and SQL's answer is NULL. */
  lemma {:induction false} EmptySumIsZero()
    ensures var group := map["g" := Number(1.0)];
      var docs := [Doc(0, 0, group, group, {}, map[])];
      && MetricValue(Sum, StateOf(Group(docs, "g", Number(1.0)), "x")) == Some(0.0)
      && IsSqlAnswer(None, Sum, SqlCells(docs, "g", Number(1.0), "x"))
      && !IsSqlAnswer(Some(0.0), Sum, SqlCells(docs, "g", Number(1.0), "x"))
  {
    var group := map["g" := Number(1.0)];
    var docs := [Doc(0, 0, group, group, {}, map[])];
    ViewOfGroup(Sum, docs, "g", Number(1.0), "x");
    assert Group(docs, "g", Number(1.0)) == docs;
    assert Cells(docs, "x") == [];
  }

  /** A document without a group value is in no bucket, though the table has a row, and so a group for NULL. */
  lemma {:induction false} NullGroupIsMissing(subs: SubAggs)
    ensures var docs := [Doc(0, 0, map[], map[], {}, map[])];
      Collect(docs, "g", subs) == map[] && Keys(View(docs), "g") == {} && |View(docs)| == 1
  {
  }
}
