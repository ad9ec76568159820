/**
 The batches made of buckets: columns filled by name, and the record batch's own conditions on types and NULLs.
*/
module AggregationBatches {
  import opened Prelude
  import opened Expressions
  import opened IndexQueries
  import opened AggregationStates
  import opened AggregationPushdown
  import T = TypeCoercion

  type Buckets = seq<(Value, Bucket)>

  type Column = seq<Option<real>>

  datatype OutputField = OutputField(name: string, dataType: T.DataType, nullable: bool)

  datatype BatchError = NoFields | CountTooLarge | WrongType(name: string) | NullNotAllowed(name: string)

  // ---------------------------------------------------------------------------
  // Columns
  // ---------------------------------------------------------------------------

  ghost predicate IsColumn(column: Column, name: string, buckets: Buckets, subs: SubAggs) {
    |column| == |buckets| && forall b :: 0 <= b < |buckets| ==> column[b] == ColumnValue(name, buckets[b].1, subs)
  }

  method BuildColumn(name: string, buckets: Buckets, subs: SubAggs) returns (column: Column)
    ensures IsColumn(column, name, buckets, subs)
  {
    column := [];
    if IsDocCountColumn(name, subs) {
      for b := 0 to |buckets|
        invariant IsColumn(column, name, buckets[..b], subs)
      {
        column := column + [Some(buckets[b].1.docCount as real)];
      }
    } else {
      for b := 0 to |buckets|
        invariant IsColumn(column, name, buckets[..b], subs)
      {
        column := column + [ExtractSubAggValue(buckets[b].1, name, subs)];
      }
    }
    assert buckets[..|buckets|] == buckets;
  }

  function KeysOf(buckets: Buckets): seq<Value> {
    seq(|buckets|, b requires 0 <= b < |buckets| => buckets[b].0)
  }

  /** The type of the key column built for a field of that type. */
  function KeyType(t: T.DataType): T.DataType {
    match t
    case Utf8 | Utf8View | Dictionary(_, _) | Float64 | Int64 | UInt64 | Boolean => t
    case List(Utf8) => t
    case List(Utf8View) => t
    case _ => T.Utf8
  }

  /** The type of the number column built for a field of that type. */
  function NumberType(t: T.DataType): T.DataType {
    match t
    case Float64 | Int64 | UInt64 => t
    case _ => T.Float64
  }

  /** The types that key columns are built for. */
  ghost predicate IsKeyType(t: T.DataType) {
    || t.Utf8? || t.Utf8View? || t.Dictionary? || t.Boolean? || IsNumberType(t)
    || t == T.List(T.Utf8) || t == T.List(T.Utf8View)
  }

  /** The types that number columns are built for. */
  ghost predicate IsNumberType(t: T.DataType) {
    t.Float64? || t.Int64? || t.UInt64?
  }

  /** A record batch takes a column of the field's type, without NULL unless the field is nullable. */
  ghost predicate Takes(field: OutputField, hasType: bool, buckets: Buckets, subs: SubAggs) {
    && hasType
    && (!field.nullable ==> forall b :: 0 <= b < |buckets| ==> ColumnValue(field.name, buckets[b].1, subs).Some?)
  }

  predicate HasNull(column: Column) {
    exists b :: 0 <= b < |column| && column[b].None?
  }

  /** The check of one number column when the batch is put together. */
  method CheckColumn(field: OutputField, built: T.DataType, column: Column, ghost buckets: Buckets, ghost subs: SubAggs)
    returns (r: Result<(), BatchError>)
    requires IsColumn(column, field.name, buckets, subs)
    ensures r.Ok? <==> Takes(field, built == field.dataType, buckets, subs)
  {
    if built != field.dataType {
      return Err(WrongType(field.name));
    }
    if !field.nullable && HasNull(column) {
      return Err(NullNotAllowed(field.name));
    }
    return Ok(());
  }

  // ---------------------------------------------------------------------------
  // Partial states
  // ---------------------------------------------------------------------------

  ghost predicate PartialFieldsFit(fields: seq<OutputField>, buckets: Buckets, subs: SubAggs) {
    && fields != [] && IsKeyType(fields[0].dataType)
    && (forall c :: 1 <= c < |fields| ==> Takes(fields[c], IsNumberType(fields[c].dataType), buckets, subs))
  }

  /**
   The first field is the group key, whatever its name; the others are filled by name. The batch fails exactly when a
   field is of another type than its column, or has a NULL that it does not allow.
  */
  method TermsBucketToPartialStateBatch(buckets: Buckets, subs: SubAggs, fields: seq<OutputField>)
    returns (r: Result<(seq<Value>, seq<Column>), BatchError>)
    ensures r.Ok? <==> PartialFieldsFit(fields, buckets, subs)
    ensures r.Ok? ==>
      && r.value.0 == KeysOf(buckets) && |r.value.1| == |fields| - 1
      && forall c :: 1 <= c < |fields| ==> IsColumn(r.value.1[c - 1], fields[c].name, buckets, subs)
  {
    if fields == [] {
      return Err(NoFields);
    }
    var columns: seq<Column> := [];
    for c := 1 to |fields|
      invariant |columns| == c - 1
      invariant forall k :: 1 <= k < c ==> IsColumn(columns[k - 1], fields[k].name, buckets, subs)
    {
      var column := BuildColumn(fields[c].name, buckets, subs);
      columns := columns + [column];
    }
    if KeyType(fields[0].dataType) != fields[0].dataType {
      return Err(WrongType(fields[0].name));
    }
    for c := 1 to |fields|
      invariant forall k :: 1 <= k < c ==> Takes(fields[k], IsNumberType(fields[k].dataType), buckets, subs)
    {
      var checked := CheckColumn(fields[c], NumberType(fields[c].dataType), columns[c - 1], buckets, subs);
      if checked.Err? {
        return Err(checked.error);
      }
    }
    return Ok((KeysOf(buckets), columns));
  }

  // ---------------------------------------------------------------------------
  // Final rows
  // ---------------------------------------------------------------------------

  datatype OutputColumn = KeyColumn(keys: seq<Value>) | ValueColumn(values: Column)

  /** The keys under the name of the group field, and otherwise what the buckets have under the name. */
  ghost predicate IsOutput(output: OutputColumn, name: string, buckets: Buckets, terms: Terms) {
    if name == terms.field then output == KeyColumn(KeysOf(buckets))
    else output.ValueColumn? && IsColumn(output.values, name, buckets, terms.subs)
  }

  /** Document counts come as 64-bit integers. */
  function OutputType(field: OutputField, subs: SubAggs): T.DataType {
    if IsDocCountColumn(field.name, subs) then T.Int64 else NumberType(field.dataType)
  }

  ghost predicate CountsFit(name: string, buckets: Buckets, subs: SubAggs) {
    IsDocCountColumn(name, subs) ==> forall b :: 0 <= b < |buckets| ==> Fits(buckets[b].1.docCount, I64)
  }

  ghost predicate OutputFits(field: OutputField, buckets: Buckets, terms: Terms) {
    if field.name == terms.field then IsKeyType(field.dataType)
    else CountsFit(field.name, buckets, terms.subs) &&
         Takes(
           field,
           if IsDocCountColumn(field.name, terms.subs) then field.dataType.Int64? else IsNumberType(field.dataType),
           buckets, terms.subs)
  }

  method BuildOutput(field: OutputField, buckets: Buckets, terms: Terms) returns (r: Result<OutputColumn, BatchError>)
    ensures r.Ok? <==> OutputFits(field, buckets, terms)
    ensures r.Ok? ==> IsOutput(r.value, field.name, buckets, terms)
  {
    if field.name == terms.field {
      if KeyType(field.dataType) != field.dataType {
        return Err(WrongType(field.name));
      }
      return Ok(KeyColumn(KeysOf(buckets)));
    }
    if IsDocCountColumn(field.name, terms.subs) &&
       exists b :: 0 <= b < |buckets| && !Fits(buckets[b].1.docCount, I64) {
      return Err(CountTooLarge);
    }
    var column := BuildColumn(field.name, buckets, terms.subs);
    var checked := CheckColumn(field, OutputType(field, terms.subs), column, buckets, terms.subs);
    if checked.Err? {
      return Err(checked.error);
    }
    return Ok(ValueColumn(column));
  }

  /** The final batch fails exactly when there is no field, a count is too large, or a type or a NULL does not fit. */
  method TermsBucketToBatch(buckets: Buckets, terms: Terms, fields: seq<OutputField>)
    returns (r: Result<seq<OutputColumn>, BatchError>)
    ensures r.Ok? <==> fields != [] && forall c :: 0 <= c < |fields| ==> OutputFits(fields[c], buckets, terms)
    ensures r.Ok? ==>
      |r.value| == |fields| && forall c :: 0 <= c < |fields| ==> IsOutput(r.value[c], fields[c].name, buckets, terms)
  {
    if fields == [] {
      return Err(NoFields);
    }
    var columns: seq<OutputColumn> := [];
    for c := 0 to |fields|
      invariant |columns| == c
      invariant forall k :: 0 <= k < c ==>
        OutputFits(fields[k], buckets, terms) && IsOutput(columns[k], fields[k].name, buckets, terms)
    {
      var column := BuildOutput(fields[c], buckets, terms);
      if column.Err? {
        return Err(column.error);
      }
      columns := columns + [column.value];
    }
    return Ok(columns);
  }

  // ---------------------------------------------------------------------------
  // Refused batches
  // ---------------------------------------------------------------------------

  /** Only the three number types have number columns: the least date of a group, say, is refused. */
  lemma {:induction false} OtherTypesAreRefused(fields: seq<OutputField>, c: nat, buckets: Buckets, subs: SubAggs)
    requires 1 <= c < |fields|
    requires !fields[c].dataType.Float64? && !fields[c].dataType.Int64? && !fields[c].dataType.UInt64?
    ensures !PartialFieldsFit(fields, buckets, subs)
  {
    assert !Takes(fields[c], IsNumberType(fields[c].dataType), buckets, subs);
  }

  /**
   A row count in a non-nullable integer field: the batch takes the column if and only if its name looks like a count,
   or there is no group at all.
  */
  lemma {:induction false} RowCountIsTakenWhen(agg: AggExpr, buckets: Buckets, subs: SubAggs)
    requires Serves(subs, agg) && HasStates(agg) && agg.column.None?
    ensures Takes(OutputField(agg.states[0], T.Int64, false), true, buckets, subs) <==>
            LooksLikeCount(agg.states[0]) || buckets == []
  {
    var name := agg.states[0];
    assert name !in subs;
    if buckets != [] && !LooksLikeCount(name) {
      assert ColumnValue(name, buckets[0].1, subs) == None;
    }
  }

  /**
   An aggregate expression that is itself named `n`, as an alias inside the aggregate makes it (one in a projection
   above does not): the row count of any bucket is NULL, and the partial batch is refused.
  */
  lemma {:induction false} NamedRowCountIsRefused(key: Value, docs: seq<Doc>)
    ensures var agg := AggExpr("n", "count", false, None, ["n[count]"]);
      var buckets := [(key, BucketOf(docs, map[]))];
      && InsertStates(map[], agg) == Some(map[])
      && StateCells(agg, BucketOf(docs, map[]), map[]) == [None]
      && !PartialFieldsFit(
        [OutputField("g", T.Utf8, true), OutputField("n[count]", T.Int64, false)], buckets, map[])
  {
    var agg := AggExpr("n", "count", false, None, ["n[count]"]);
    var buckets := [(key, BucketOf(docs, map[]))];
    assert "n[count]"[0] == 'n';
    RowCountColumn(agg, docs, map[]);
    RowCountIsTakenWhen(agg, buckets, map[]);
    var fields := [OutputField("g", T.Utf8, true), OutputField("n[count]", T.Int64, false)];
    assert !Takes(fields[1], IsNumberType(fields[1].dataType), buckets, map[]);
  }
}
