/**
 Aggregates over columns that the table coerces: they are computed from the values of the index, and so are SQL's
 answers exactly under the types for which the table shows those values.
*/
module CoercedAggregates {
  import opened Prelude
  import opened Expressions
  import opened IndexQueries
  import opened ShownCells
  import opened AggregationStates
  import T = TypeCoercion

  // ---------------------------------------------------------------------------
  // Types that change nothing
  // ---------------------------------------------------------------------------

  /** The table shows every value of the field as it is. */
  ghost predicate AlwaysUnchanged(kind: FieldType, target: DataType, kernel: Kernel)
    requires FieldCoercion(kind, target).Some?
  {
    forall v :: ValueFits(kind, v) ==> ShownCell(kind, target, v, kernel) == Some(v)
  }

  /**
   The pairs of field type and table type for which that is so: the field's own Arrow type, string types for strings,
   and timestamps that neither cut nor shift dates.
  */
  ghost predicate KeepsValues(kind: FieldType, target: DataType, kernel: Kernel) {
    match kind
    case StrField => !target.List?
    case DateField(_) => (target.TimestampMicros? || target.OtherTimestamp?) && KeepsComparisons(kind, target, kernel)
    case _ => Some(target) == T.ScalarArrowType(kind)
  }

  predicate IsNumberField(kind: FieldType) {
    kind.I64Field? || kind.U64Field? || kind.F64Field?
  }

  /** A number that is out of range for the integer type, or that is cut or rounded. */
  lemma {:induction false} ChangedNumber(kind: FieldType, target: DataType, kernel: Kernel) returns (v: Value)
    requires IsNumberField(kind) && RoundsAsIeee(kernel)
    requires FieldCoercion(kind, target).Some? && !KeepsValues(kind, target, kernel)
    ensures ValueFits(kind, v) && ShownCell(kind, target, v, kernel) != Some(v)
  {
    if target.List? {
      v := Number(0.0);
    } else if IntegerKind(target).Some? {
      if kind.F64Field? {
        v := Truncated(kind, target, kernel);
      } else {
        v := OutOfRange(kind, target, kernel);
      }
    } else if T.IsNumeric(target) {
      v := Rounded(kind, target, kernel);
    } else {
      NumberCoercions(kind, target);
      v := Number(0.0);
    }
  }

  /** An integer that no other integer type of the table has. */
  function Outlier(kind: FieldType, target: DataType): int
    requires IntegerKind(target).Some?
  {
    if kind.I64Field? && Lowest(IntegerKind(target).value) == 0 then -1
    else if kind.I64Field? then Highest(I64)
    else Highest(U64)
  }

  lemma {:induction false} OutOfRange(kind: FieldType, target: DataType, kernel: Kernel) returns (v: Value)
    requires (kind.I64Field? || kind.U64Field?) && IntegerKind(target).Some?
    requires FieldCoercion(kind, target).Some? && Some(target) != T.ScalarArrowType(kind)
    ensures v == Number(Outlier(kind, target) as real)
    ensures ValueFits(kind, v) && ShownCell(kind, target, v, kernel) == None
  {
    NumberCoercions(kind, target);
    v := Number(Outlier(kind, target) as real);
    assert Truncate(v.n) == Outlier(kind, target);
  }

  /** A value that the table shows otherwise. */
  lemma {:induction false} ChangedValue(kind: FieldType, target: DataType, kernel: Kernel) returns (v: Value)
    requires RoundsAsIeee(kernel) && !kind.IpField?
    requires FieldCoercion(kind, target).Some? && !KeepsValues(kind, target, kernel)
    ensures ValueFits(kind, v) && ShownCell(kind, target, v, kernel) != Some(v)
  {
    match kind
    case BoolField => v := Flag(true);
    case StrField => v := Text("");
    case BytesField => v := Bytes([]);
    case DateField(precision) =>
      if target.TimestampMicros? || target.OtherTimestamp? {
        v := DistortedDate(kind, target, kernel);
      } else {
        v := Instant(0);
        if !target.List? {
          DateCoercions(precision, target);
        }
      }
    case _ => v := ChangedNumber(kind, target, kernel);
  }

  lemma {:induction false} KeptDate(kind: FieldType, target: DataType, v: Value, kernel: Kernel)
    requires kind.DateField? && ValueFits(kind, v)
    requires FieldCoercion(kind, target).Some? && KeepsValues(kind, target, kernel)
    ensures ShownCell(kind, target, v, kernel) == Some(v)
  {
    DateCoercions(kind.precision, target);
    DatesStandFor(kind, target, v, kernel);
  }

  lemma {:induction false} KeptValue(kind: FieldType, target: DataType, v: Value, kernel: Kernel)
    requires !kind.DateField? && !kind.IpField? && ValueFits(kind, v)
    requires FieldCoercion(kind, target).Some? && KeepsValues(kind, target, kernel)
    ensures ShownCell(kind, target, v, kernel) == Some(v)
  {
  }

  /** The condition is exact for every field type but addresses, whose texts are never what the index has. */
  lemma {:induction false} KeepsValuesIsExact(kind: FieldType, target: DataType, kernel: Kernel)
    requires RoundsAsIeee(kernel) && !kind.IpField? && FieldCoercion(kind, target).Some?
    ensures AlwaysUnchanged(kind, target, kernel) <==> KeepsValues(kind, target, kernel)
  {
    if KeepsValues(kind, target, kernel) {
      forall v | ValueFits(kind, v)
        ensures ShownCell(kind, target, v, kernel) == Some(v)
      {
        if kind.DateField? {
          KeptDate(kind, target, v, kernel);
        } else {
          KeptValue(kind, target, v, kernel);
        }
      }
    } else {
      var v := ChangedValue(kind, target, kernel);
    }
  }

  // ---------------------------------------------------------------------------
  // Documents under a table type
  // ---------------------------------------------------------------------------

  /** Documents with a field of that kind that the table shows under that type. */
  ghost predicate IsLot(docs: seq<Doc>, column: string, kind: FieldType, target: DataType, kernel: Kernel)
    requires FieldCoercion(kind, target).Some?
  {
    forall i :: 0 <= i < |docs| ==>
      if column in docs[i].values then
        ValueFits(kind, docs[i].values[column]) &&
        CellOfDoc(docs[i], column) == ShownCell(kind, target, docs[i].values[column], kernel)
      else column !in docs[i].shown
  }

  function OneDoc(column: string, v: Value, cell: Option<Value>): Doc {
    Doc(0, 0, map[column := v], if cell.Some? then map[column := cell.value] else map[], {}, map[])
  }

  lemma {:induction false} OneDocIsLot(column: string, kind: FieldType, target: DataType, v: Value, kernel: Kernel)
    requires FieldCoercion(kind, target).Some? && ValueFits(kind, v)
    ensures IsLot([OneDoc(column, v, ShownCell(kind, target, v, kernel))], column, kind, target, kernel)
  {
  }

  lemma {:induction false} OneDocCells(column: string, v: Value, cell: Option<Value>)
    ensures Cells([OneDoc(column, v, cell)], column) == [v]
    ensures Cells(View([OneDoc(column, v, cell)]), column) == if cell.Some? then [cell.value] else []
    ensures Keys([OneDoc(column, v, cell)], column) == {v}
    ensures Keys(View([OneDoc(column, v, cell)]), column) == if cell.Some? then {cell.value} else {}
  {
    var docs := [OneDoc(column, v, cell)];
    var view := View(docs);
    assert docs[1..] == [] && view[1..] == [];
    assert docs[0].values[column] in Keys(docs, column);
    assert cell.Some? ==> view[0].values[column] in Keys(view, column);
  }

  lemma {:induction false} UnchangedLot(
      docs: seq<Doc>, column: string, kind: FieldType, target: DataType, kernel: Kernel)
    requires FieldCoercion(kind, target).Some? && AlwaysUnchanged(kind, target, kernel)
    requires IsLot(docs, column, kind, target, kernel)
    ensures ShownAsIndexed(docs, column)
  {
    forall i | 0 <= i < |docs|
      ensures SameIn(docs[i], column)
    {
      if column in docs[i].values {
        assert CellOfDoc(docs[i], column) == Some(docs[i].values[column]);
      }
    }
  }

  // ---------------------------------------------------------------------------
  // Metrics
  // ---------------------------------------------------------------------------

  /** The merged value is SQL's answer over the table, or a sum over nothing. */
  ghost predicate IsRight(metric: Metric, docs: seq<Doc>, column: string) {
    || IsSqlAnswer(MetricValue(metric, StateOf(docs, column)), metric, Cells(View(docs), column))
    || (metric.Sum? && Cells(docs, column) == [])
  }

  lemma {:induction false} ViewHasCells(docs: seq<Doc>, column: string)
    requires ShownAsIndexed(docs, column)
    ensures Cells(View(docs), column) == Cells(docs, column)
  {
    if docs == [] {
    } else {
      ViewHasCells(docs[1..], column);
      assert View(docs)[1..] == View(docs[1..]);
      assert SameIn(docs[0], column);
    }
  }

  lemma {:induction false} LotIsNumeric(
      docs: seq<Doc>, column: string, kind: FieldType, target: DataType, kernel: Kernel)
    requires IsNumberField(kind) && FieldCoercion(kind, target).Some? && IsLot(docs, column, kind, target, kernel)
    ensures forall v :: v in Cells(docs, column) ==> v.Number?
  {
    if docs == [] {
    } else {
      LotIsNumeric(docs[1..], column, kind, target, kernel);
      assert column in docs[0].values ==> ValueFits(kind, docs[0].values[column]);
    }
  }

  /** One number that is shown otherwise makes sum, least, greatest and average wrong. */
  lemma {:induction false} ChangedCellIsWrong(metric: Metric, column: string, v: Value, cell: Option<Value>)
    requires !metric.Count? && v.Number? && cell != Some(v)
    ensures !IsRight(metric, [OneDoc(column, v, cell)], column)
  {
    OneDocCells(column, v, cell);
    assert Numbers([v]) == [v.n];
    OneNumber(v.n);
    if cell.Some? && cell.value.Number? {
      assert Numbers([cell.value]) == [cell.value.n];
      OneNumber(cell.value.n);
    } else if cell.Some? {
      assert cell.value in [cell.value];
    }
  }

  lemma {:induction false} OneNumber(n: real)
    ensures Total([n]) == n && LeastOf([n]) == Some(n) && GreatestOf([n]) == Some(n)
  {
    assert [n][1..] == [];
  }

  /**
   Sum, least, greatest and average of a number field are SQL's over every lot of documents if and only if the table
   shows the field under its own Arrow type. Keeping comparisons is not enough.
  */
  lemma {:induction false} MetricIsRightWhen(
      metric: Metric, column: string, kind: FieldType, target: DataType, kernel: Kernel)
    requires !metric.Count? && IsNumberField(kind) && RoundsAsIeee(kernel) && FieldCoercion(kind, target).Some?
    ensures (forall docs :: IsLot(docs, column, kind, target, kernel) ==> IsRight(metric, docs, column)) <==>
            Some(target) == T.ScalarArrowType(kind)
  {
    KeepsValuesIsExact(kind, target, kernel);
    if KeepsValues(kind, target, kernel) {
      forall docs | IsLot(docs, column, kind, target, kernel)
        ensures IsRight(metric, docs, column)
      {
        UnchangedLot(docs, column, kind, target, kernel);
        ViewHasCells(docs, column);
        LotIsNumeric(docs, column, kind, target, kernel);
        MetricIsSqlAnswer(metric, docs, column);
      }
    } else {
      var v := ChangedValue(kind, target, kernel);
      OneDocIsLot(column, kind, target, v, kernel);
      ChangedCellIsWrong(metric, column, v, ShownCell(kind, target, v, kernel));
    }
  }

  // ---------------------------------------------------------------------------
  // Counts
  // ---------------------------------------------------------------------------

  /**
   The types under which no value becomes NULL: a number field has no integer type but its own, and every address has
   a text that parses if it is shown as a number.
  */
  ghost predicate NeverNull(kind: FieldType, target: DataType, kernel: Kernel) {
    match kind
    case IpField(table) =>
      T.IsNumeric(target) ==> forall a :: IsAddress(table, a) ==> kernel.parse(target, table.names[a]).Some?
    case I64Field | U64Field | F64Field => IntegerKind(target).Some? ==> Some(target) == T.ScalarArrowType(kind)
    case _ => true
  }

  ghost predicate AlwaysShown(kind: FieldType, target: DataType, kernel: Kernel)
    requires FieldCoercion(kind, target).Some?
  {
    forall v :: ValueFits(kind, v) ==> ShownCell(kind, target, v, kernel).Some?
  }

  lemma {:induction false} AddressCoercions(table: AddressTable, target: DataType)
    requires FieldCoercion(IpField(table), target).Some? && !target.List?
    ensures var coercion := FieldCoercion(IpField(table), target).value;
      || (coercion == T.TryCastUtf8ToNumeric(target) && T.IsNumeric(target))
      || ((coercion == T.Exact || coercion == T.CastTo(target)) && T.IsUtf8Like(target))
  {
  }

  lemma {:induction false} NullValue(kind: FieldType, target: DataType, kernel: Kernel) returns (v: Value)
    requires FieldCoercion(kind, target).Some? && !NeverNull(kind, target, kernel)
    ensures ValueFits(kind, v) && ShownCell(kind, target, v, kernel) == None
  {
    match kind
    case IpField(table) =>
      AddressCoercions(table, target);
      var a :| IsAddress(table, a) && kernel.parse(target, table.names[a]).None?;
      v := Address(a);
    case F64Field =>
      NumberCoercions(kind, target);
      v := Number(Highest(U64) as real + 1.0);
      assert Truncate(v.n) == Highest(U64) + 1;
    case _ => v := OutOfRange(kind, target, kernel);
  }

  lemma {:induction false} ListIsShown(kind: FieldType, target: DataType, v: Value, kernel: Kernel)
    requires FieldCoercion(kind, target).Some? && ValueFits(kind, v) && target.List?
    ensures ShownCell(kind, target, v, kernel).Some?
  {
    var coercion := FieldCoercion(kind, target).value;
    assert coercion.TimestampMicrosToMillisList? || coercion.TryCastUtf8ToNumericList? || coercion.ScalarToList?;
  }

  /** The coercions of booleans, strings and bytes. */
  lemma {:induction false} OtherCoercions(kind: FieldType, target: DataType)
    requires kind.BoolField? || kind.StrField? || kind.BytesField?
    requires FieldCoercion(kind, target).Some? && !target.List?
    ensures var coercion := FieldCoercion(kind, target).value;
      coercion == T.Exact || (coercion == T.CastTo(target) && T.IsUtf8Like(target))
  {
  }

  lemma {:induction false} ShownWhereNeverNull(kind: FieldType, target: DataType, v: Value, kernel: Kernel)
    requires FieldCoercion(kind, target).Some? && NeverNull(kind, target, kernel) && ValueFits(kind, v)
    ensures ShownCell(kind, target, v, kernel).Some?
  {
    if target.List? {
      ListIsShown(kind, target, v, kernel);
    } else if IsNumberField(kind) {
      NumberCoercions(kind, target);
    } else if kind.IpField? {
      AddressCoercions(kind.table, target);
    } else if kind.DateField? {
      DateCoercions(kind.precision, target);
    } else {
      OtherCoercions(kind, target);
    }
  }

  lemma {:induction false} ViewHasAsMany(docs: seq<Doc>, column: string)
    requires forall i :: 0 <= i < |docs| ==> (column in docs[i].shown <==> column in docs[i].values)
    ensures |Cells(View(docs), column)| == |Cells(docs, column)|
  {
    if docs == [] {
    } else {
      ViewHasAsMany(docs[1..], column);
      assert View(docs)[1..] == View(docs[1..]);
    }
  }

  lemma {:induction false} LotHasAsMany(
      docs: seq<Doc>, column: string, kind: FieldType, target: DataType, kernel: Kernel)
    requires FieldCoercion(kind, target).Some? && NeverNull(kind, target, kernel)
    requires IsLot(docs, column, kind, target, kernel)
    ensures |Cells(View(docs), column)| == |Cells(docs, column)|
  {
    forall i | 0 <= i < |docs| && column in docs[i].values
      ensures column in docs[i].shown
    {
      ShownWhereNeverNull(kind, target, docs[i].values[column], kernel);
    }
    ViewHasAsMany(docs, column);
  }

  /** A count of any field is SQL's over every lot of documents if and only if no value becomes NULL. */
  lemma {:induction false} CountIsRightWhen(column: string, kind: FieldType, target: DataType, kernel: Kernel)
    requires FieldCoercion(kind, target).Some?
    ensures (forall docs :: IsLot(docs, column, kind, target, kernel) ==> IsRight(Count, docs, column)) <==>
            NeverNull(kind, target, kernel)
  {
    if NeverNull(kind, target, kernel) {
      forall docs | IsLot(docs, column, kind, target, kernel)
        ensures IsRight(Count, docs, column)
      {
        LotHasAsMany(docs, column, kind, target, kernel);
      }
    } else {
      var v := NullValue(kind, target, kernel);
      OneDocIsLot(column, kind, target, v, kernel);
      OneDocCells(column, v, None);
    }
  }

  /** Under the type its metric needs, a column of any documents can be aggregated from the index. */
  lemma {:induction false} TypesAnswer(
      metric: Metric, docs: seq<Doc>, column: string, kind: FieldType, target: DataType, kernel: Kernel)
    requires FieldCoercion(kind, target).Some? && IsLot(docs, column, kind, target, kernel)
    requires if metric.Count? then NeverNull(kind, target, kernel)
             else IsNumberField(kind) && Some(target) == T.ScalarArrowType(kind)
    ensures Answerable(metric, docs, column)
  {
    forall i | 0 <= i < |docs| && column in docs[i].values
      ensures column in docs[i].shown
      ensures !metric.Count? ==> docs[i].values[column].Number? && SameIn(docs[i], column)
    {
      var v := docs[i].values[column];
      if metric.Count? {
        ShownWhereNeverNull(kind, target, v, kernel);
      } else {
        KeptValue(kind, target, v, kernel);
      }
      assert CellOfDoc(docs[i], column) == ShownCell(kind, target, v, kernel);
    }
  }

  // ---------------------------------------------------------------------------
  // Groups
  // ---------------------------------------------------------------------------

  /** The buckets are SQL's groups: the same keys, and under each key the same documents. */
  ghost predicate BucketsAreGroups(docs: seq<Doc>, column: string) {
    && Keys(View(docs), column) == Keys(docs, column)
    && forall key :: Group(View(docs), column, key) == View(Group(docs, column, key))
  }

  lemma {:induction false} ViewOfBucket(docs: seq<Doc>, column: string, key: Value)
    requires ShownAsIndexed(docs, column)
    ensures Group(View(docs), column, key) == View(Group(docs, column, key))
  {
    if docs == [] {
    } else {
      ViewOfBucket(docs[1..], column, key);
      assert View(docs)[1..] == View(docs[1..]);
      assert SameIn(docs[0], column);
      var rest := Group(docs[1..], column, key);
      assert View([docs[0]] + rest) == [View(docs)[0]] + View(rest);
      assert [] + rest == rest;
    }
  }

  /**
   Grouping by a column: the buckets are SQL's groups over every lot of documents if and only if the table shows the
   values of the index.
  */
  lemma {:induction false} BucketsAreGroupsWhen(column: string, kind: FieldType, target: DataType, kernel: Kernel)
    requires RoundsAsIeee(kernel) && !kind.IpField? && FieldCoercion(kind, target).Some?
    ensures (forall docs :: IsLot(docs, column, kind, target, kernel) ==> BucketsAreGroups(docs, column)) <==>
            KeepsValues(kind, target, kernel)
  {
    KeepsValuesIsExact(kind, target, kernel);
    if KeepsValues(kind, target, kernel) {
      forall docs | IsLot(docs, column, kind, target, kernel)
        ensures BucketsAreGroups(docs, column)
      {
        UnchangedLot(docs, column, kind, target, kernel);
        ViewHasKeys(docs, column);
        forall key {
          ViewOfBucket(docs, column, key);
        }
      }
    } else {
      var v := ChangedValue(kind, target, kernel);
      OneDocIsLot(column, kind, target, v, kernel);
      OneDocCells(column, v, ShownCell(kind, target, v, kernel));
    }
  }

  // ---------------------------------------------------------------------------
  // Wrong answers
  // ---------------------------------------------------------------------------

  /** A float field shown as integers: the sum of 5.7 is 5.7, where SQL adds the 5 it sees. */
  lemma {:induction false} CoercedSumDiffers(kernel: Kernel)
    ensures FieldCoercion(F64Field, T.Int64).Some?
    ensures var docs := [OneDoc("x", Number(5.7), ShownCell(F64Field, T.Int64, Number(5.7), kernel))];
      && IsLot(docs, "x", F64Field, T.Int64, kernel)
      && MetricValue(Sum, StateOf(docs, "x")) == Some(5.7)
      && IsSqlAnswer(Some(5.0), Sum, Cells(View(docs), "x"))
      && !IsRight(Sum, docs, "x")
  {
    var v := Truncated(F64Field, T.Int64, kernel);
    var cell := ShownCell(F64Field, T.Int64, v, kernel);
    OneDocIsLot("x", F64Field, T.Int64, v, kernel);
    OneDocCells("x", v, cell);
    assert Numbers([v]) == [5.7] && Numbers([cell.value]) == [5.0];
    OneNumber(5.7);
    OneNumber(5.0);
    ChangedCellIsWrong(Sum, "x", v, cell);
  }

  /**
   A wide integer field shown as a narrow one keeps all comparisons, since what does not fit is NULL; its sum still has
   the value that does not fit.
  */
  lemma {:induction false} NarrowedSumDiffers(kernel: Kernel)
    ensures FieldCoercion(I64Field, T.Int32).Some? && KeepsComparisons(I64Field, T.Int32, kernel)
    ensures var docs := [OneDoc("x", Number(Highest(I64) as real), None)];
      && IsLot(docs, "x", I64Field, T.Int32, kernel)
      && !IsRight(Sum, docs, "x") && !IsRight(Count, docs, "x")
  {
    var v := OutOfRange(I64Field, T.Int32, kernel);
    OneDocIsLot("x", I64Field, T.Int32, v, kernel);
    OneDocCells("x", v, None);
    ChangedCellIsWrong(Sum, "x", v, None);
  }
}
