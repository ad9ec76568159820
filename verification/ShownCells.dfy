/**
 What the table shows of an indexed value: the reader turns it into a cell of the split's Arrow type, and the planned
 coercion turns that into a cell of the table's type. A filter may only be answered by the index where the cell
 still stands for the value.
*/
module ShownCells {
  import opened Prelude
  import opened Expressions
  import opened IndexQueries
  import opened FilterTranslation
  import opened Pushdown
  import T = TypeCoercion

  type DataType = T.DataType

  /**
   What is left to the cast kernel: rounding to a float type, texts of values, numbers in texts, and the offset in
   seconds of a time zone at a local time.
  */
  datatype Kernel = Kernel(
    round: (DataType, real) -> real, render: Value -> string, parse: (DataType, string) -> Option<real>,
    offset: (string, int) -> int)

  /** Doubles hold integers up to 2^53, and the next one is rounded; likewise the narrower floats. */
  ghost predicate RoundsAsIeee(kernel: Kernel) {
    && kernel.round(T.Float64, 9_007_199_254_740_993.0) == 9_007_199_254_740_992.0
    && kernel.round(T.Float32, 16_777_217.0) == 16_777_216.0
    && kernel.round(T.Float16, 2_049.0) == 2_048.0
  }

  // ---------------------------------------------------------------------------
  // Machine arithmetic
  // ---------------------------------------------------------------------------

  /** Machine division truncates toward zero, and so do casts of floats to integers. */
  function Thousandth(a: int): int {
    if a >= 0 || a % 1_000 == 0 then a / 1_000 else a / 1_000 + 1
  }

  function Truncate(x: real): int {
    if x >= 0.0 || x == x.Floor as real then x.Floor else x.Floor + 1
  }

  /** A multiplication of 64-bit integers wraps around. */
  function Wrap64(n: int): int {
    (n + 0x8000_0000_0000_0000) % 0x1_0000_0000_0000_0000 - 0x8000_0000_0000_0000
  }

  /** Division and cast take the nearest smaller magnitude: never past zero, and never a whole unit away. */
  lemma {:induction false} CutTowardZero(a: int, x: real)
    ensures a >= 0 ==> 1_000 * Thousandth(a) <= a < 1_000 * (Thousandth(a) + 1)
    ensures a <= 0 ==> 1_000 * (Thousandth(a) - 1) < a <= 1_000 * Thousandth(a)
    ensures x >= 0.0 ==> Truncate(x) as real <= x < (Truncate(x) + 1) as real
    ensures x <= 0.0 ==> (Truncate(x) - 1) as real < x <= Truncate(x) as real
  {
  }

  /** What wraps around is a 64-bit integer, a multiple of 2^64 away. */
  lemma {:induction false} WrapsAround(n: int)
    ensures Fits(Wrap64(n), I64) && (n - Wrap64(n)) % 0x1_0000_0000_0000_0000 == 0
    ensures Fits(n, I64) ==> Wrap64(n) == n
  {
  }

  function IntegerKind(t: DataType): Option<IntKind> {
    match t
    case Int8 => Some(I8)
    case Int16 => Some(I16)
    case Int32 => Some(I32)
    case Int64 => Some(I64)
    case UInt8 => Some(U8)
    case UInt16 => Some(U16)
    case UInt32 => Some(U32)
    case UInt64 => Some(U64)
    case _ => None
  }

  // ---------------------------------------------------------------------------
  // From the index to the table
  // ---------------------------------------------------------------------------

  /** The cell of the split's own Arrow type: dates are read as microseconds, addresses as texts. */
  function ReadCell(kind: FieldType, v: Value): Value
    requires ValueFits(kind, v)
  {
    match (kind, v)
    case (DateField(_), Instant(nanos)) => Instant(Thousandth(nanos) * 1_000)
    case (IpField(table), Address(a)) => Text(table.names[a])
    case _ => v
  }

  /** A coarser unit cuts microseconds off. */
  function ToUnit(nanos: int, unit: TimeUnit): int {
    match unit
    case Second => Thousandth(Thousandth(Thousandth(nanos))) * 1_000_000_000
    case Millisecond => Thousandth(Thousandth(nanos)) * 1_000_000
    case Microsecond => Thousandth(nanos) * 1_000
    case Nanosecond => nanos
  }

  /** A timestamp without a zone is a local time for a type that has one. */
  function CastInstant(nanos: int, unit: TimeUnit, zone: Option<string>, kernel: Kernel): int {
    var local := ToUnit(nanos, unit);
    if zone.None? then local else local - kernel.offset(zone.value, local) * 1_000_000_000
  }

  /** The instant is the one at which a clock in the zone shows the local time. */
  lemma {:induction false} LocalTimeIsKept(nanos: int, unit: TimeUnit, zone: string, kernel: Kernel)
    ensures var instant, local := CastInstant(nanos, unit, Some(zone), kernel), CastInstant(nanos, unit, None, kernel);
      instant + kernel.offset(zone, local) * 1_000_000_000 == local
  {
  }

  /** The cast kernel: NULL when an integer leaves the range of its type. */
  function CastCell(cell: Value, target: DataType, kernel: Kernel): Option<Value> {
    match cell
    case Number(n) =>
      if IntegerKind(target).Some? then
        if Fits(Truncate(n), IntegerKind(target).value) then Some(Number(Truncate(n) as real)) else None
      else if T.IsNumeric(target) then Some(Number(kernel.round(target, n)))
      else Some(Text(kernel.render(cell)))
    case Text(s) => Some(cell)
    case Instant(nanos) =>
      if target.OtherTimestamp? then Some(Instant(CastInstant(nanos, target.unit, target.zone, kernel)))
      else if T.IsUtf8Like(target) then Some(Text(kernel.render(cell)))
      else Some(cell)
    case _ => if T.IsUtf8Like(target) then Some(Text(kernel.render(cell))) else Some(cell)
  }

  function ParseCell(cell: Value, target: DataType, kernel: Kernel): Option<Value> {
    if cell.Text? then
      var n :- kernel.parse(target, cell.s);
      Some(Number(n))
    else None
  }

  function MillisOf(cell: Value): Option<Value> {
    if cell.Instant? then Some(Number(Thousandth(Thousandth(cell.nanos)) as real)) else None
  }

  function CoerceCell(cell: Value, coercion: T.Coercion, kernel: Kernel): Option<Value> {
    match coercion
    case Exact => Some(cell)
    case CastTo(target) => CastCell(cell, target, kernel)
    case EpochMillisToTimestampMicros =>
      if cell.Number? then Some(Instant(Wrap64(cell.n.Floor * 1_000) * 1_000)) else None
    case TimestampMicrosToMillis => MillisOf(cell)
    case TimestampMicrosToMillisList => Some(Listed([MillisOf(cell)]))
    case TryCastUtf8ToNumeric(target) => ParseCell(cell, target, kernel)
    case TryCastUtf8ToNumericList(item) => Some(Listed([ParseCell(cell, item, kernel)]))
    case TryCastUtf8ListToNumericList(_) => None
    case ScalarToList(_, castTo) =>
      Some(Listed([if castTo.Some? then CastCell(cell, castTo.value, kernel) else Some(cell)]))
  }

  /** The planned coercion of a field to a type of the table. */
  function FieldCoercion(kind: FieldType, target: DataType): Option<T.Coercion> {
    var source :- T.ScalarArrowType(kind);
    T.PlanCoercion(source, target)
  }

  function ShownCell(kind: FieldType, target: DataType, v: Value, kernel: Kernel): Option<Value>
    requires ValueFits(kind, v) && FieldCoercion(kind, target).Some?
  {
    CoerceCell(ReadCell(kind, v), FieldCoercion(kind, target).value, kernel)
  }

  // ---------------------------------------------------------------------------
  // Which types keep comparisons
  // ---------------------------------------------------------------------------

  /** Every cell the type shows of a value of the field stands for the value. */
  ghost predicate AlwaysStandsFor(kind: FieldType, target: DataType, kernel: Kernel) {
    FieldCoercion(kind, target).Some? ==>
      forall v :: ValueFits(kind, v) && ShownCell(kind, target, v, kernel).Some? ==>
        StandsFor(kind, ShownCell(kind, target, v, kernel).value, v)
  }

  predicate AtLeastAsCoarse(precision: TimeUnit, unit: TimeUnit) {
    NanosPer(precision) >= NanosPer(unit)
  }

  /**
   The pairs of field type and table type under which cells always stand for values. Integers may be shown in any
   integer type, since what does not fit is NULL, but not as floats; floats as doubles only; dates where no unit on
   the way is coarser than they are and no zone shifts them. Epoch milliseconds shown as a timestamp overflow. Texts of
   numbers, and lists, are not compared with literals that have terms.
  */
  ghost predicate KeepsComparisons(kind: FieldType, target: DataType, kernel: Kernel) {
    match kind
    case I64Field => !target.TimestampMicros? && (T.IsNumeric(target) ==> IntegerKind(target).Some?)
    case U64Field => T.IsNumeric(target) ==> IntegerKind(target).Some?
    case F64Field => T.IsNumeric(target) ==> target.Float64?
    case DateField(precision) =>
      && (target.TimestampMicros? ==> AtLeastAsCoarse(precision, Microsecond))
      && (target.Int64? ==> AtLeastAsCoarse(precision, Millisecond))
      && (target.OtherTimestamp? ==>
            && AtLeastAsCoarse(precision, Microsecond) && AtLeastAsCoarse(precision, target.unit)
            && (target.zone.Some? ==> NeverShifts(target.zone.value, precision, kernel)))
    case _ => true
  }

  /** The zone is at no offset at any time of the field. */
  ghost predicate NeverShifts(zone: string, precision: TimeUnit, kernel: Kernel) {
    forall nanos :: Fits(nanos, I64) && nanos % NanosPer(precision) == 0 ==> kernel.offset(zone, nanos) == 0
  }

  lemma {:induction false} ThousandthOf(q: int)
    ensures Thousandth(1_000 * q) == q
  {
  }

  /** The coercions a number field can get. */
  lemma {:induction false} NumberCoercions(kind: FieldType, target: DataType)
    requires kind.I64Field? || kind.U64Field? || kind.F64Field?
    requires FieldCoercion(kind, target).Some? && !target.List?
    ensures var coercion := FieldCoercion(kind, target).value;
      || coercion == T.Exact
      || (coercion == T.CastTo(target) && (T.IsNumeric(target) || T.IsUtf8Like(target)))
      || (coercion == T.EpochMillisToTimestampMicros && kind.I64Field? && target.TimestampMicros?)
    ensures kind.F64Field? && target.Float64? ==> FieldCoercion(kind, target) == Some(T.Exact)
  {
  }

  /** A list is compared with nothing. */
  lemma {:induction false} ListsStandFor(kind: FieldType, target: DataType, v: Value, kernel: Kernel)
    requires ValueFits(kind, v) && FieldCoercion(kind, target).Some? && target.List?
    requires ShownCell(kind, target, v, kernel).Some?
    ensures StandsFor(kind, ShownCell(kind, target, v, kernel).value, v)
  {
  }

  lemma {:induction false} NumbersStandFor(kind: FieldType, target: DataType, v: Value, kernel: Kernel)
    requires kind.I64Field? || kind.U64Field? || kind.F64Field?
    requires ValueFits(kind, v) && FieldCoercion(kind, target).Some? && KeepsComparisons(kind, target, kernel)
    requires ShownCell(kind, target, v, kernel).Some? && !target.List?
    ensures StandsFor(kind, ShownCell(kind, target, v, kernel).value, v)
  {
    NumberCoercions(kind, target);
  }

  /** The coercions a date field can get. */
  lemma {:induction false} DateCoercions(precision: TimeUnit, target: DataType)
    requires FieldCoercion(DateField(precision), target).Some? && !target.List?
    ensures var coercion := FieldCoercion(DateField(precision), target).value;
      || (coercion == T.Exact && target.TimestampMicros?)
      || (coercion == T.TimestampMicrosToMillis && target.Int64?)
      || (coercion == T.CastTo(target) && (target.OtherTimestamp? || T.IsUtf8Like(target)))
  {
  }

  lemma {:induction false} WholeMicros(precision: TimeUnit, nanos: int) returns (micros: int)
    requires nanos % NanosPer(precision) == 0 && !precision.Nanosecond?
    ensures nanos == 1_000 * micros
  {
    match precision
    case Second => micros := 1_000_000 * (nanos / 1_000_000_000);
    case Millisecond => micros := 1_000 * (nanos / 1_000_000);
    case Microsecond => micros := nanos / 1_000;
  }

  lemma {:induction false} WholeMillis(precision: TimeUnit, nanos: int) returns (millis: int)
    requires nanos % NanosPer(precision) == 0 && AtLeastAsCoarse(precision, Millisecond)
    ensures nanos == 1_000 * (1_000 * millis)
  {
    if precision.Second? {
      millis := 1_000 * (nanos / 1_000_000_000);
    } else {
      millis := nanos / 1_000_000;
    }
  }

  lemma {:induction false} WholeMicrosAreRead(precision: TimeUnit, v: Value)
    requires ValueFits(DateField(precision), v) && AtLeastAsCoarse(precision, Microsecond)
    ensures ReadCell(DateField(precision), v) == v
  {
    var micros := WholeMicros(precision, v.nanos);
    ThousandthOf(micros);
  }

  lemma {:induction false} WholeMillisAreShown(precision: TimeUnit, v: Value)
    requires ValueFits(DateField(precision), v) && AtLeastAsCoarse(precision, Millisecond)
    ensures MillisOf(v).Some? && StandsFor(DateField(precision), MillisOf(v).value, v)
  {
    var millis := WholeMillis(precision, v.nanos);
    ThousandthOf(1_000 * millis);
    ThousandthOf(millis);
    assert (millis * NANOS_PER_MILLI) as real == millis as real * NANOS_PER_MILLI as real;
  }

  lemma {:induction false} WholeUnitsAreKept(precision: TimeUnit, nanos: int, unit: TimeUnit)
    requires nanos % NanosPer(precision) == 0
    requires AtLeastAsCoarse(precision, Microsecond) && AtLeastAsCoarse(precision, unit)
    ensures ToUnit(nanos, unit) == nanos
  {
    match unit
    case Second =>
      var seconds := nanos / 1_000_000_000;
      ThousandthOf(1_000 * (1_000 * seconds));
      ThousandthOf(1_000 * seconds);
      ThousandthOf(seconds);
    case Millisecond =>
      var millis := WholeMillis(precision, nanos);
      ThousandthOf(1_000 * millis);
      ThousandthOf(millis);
    case Microsecond =>
      var micros := WholeMicros(precision, nanos);
      ThousandthOf(micros);
    case Nanosecond =>
  }

  lemma {:induction false} DatesStandFor(kind: FieldType, target: DataType, v: Value, kernel: Kernel)
    requires kind.DateField?
    requires ValueFits(kind, v) && FieldCoercion(kind, target).Some? && KeepsComparisons(kind, target, kernel)
    requires ShownCell(kind, target, v, kernel).Some? && !target.List?
    ensures StandsFor(kind, ShownCell(kind, target, v, kernel).value, v)
  {
    DateCoercions(kind.precision, target);
    if target.TimestampMicros? {
      WholeMicrosAreRead(kind.precision, v);
    } else if target.Int64? {
      WholeMicrosAreRead(kind.precision, v);
      WholeMillisAreShown(kind.precision, v);
    } else if target.OtherTimestamp? {
      WholeMicrosAreRead(kind.precision, v);
      WholeUnitsAreKept(kind.precision, v.nanos, target.unit);
    }
  }

  lemma {:induction false} DistortedDate(kind: FieldType, target: DataType, kernel: Kernel) returns (v: Value)
    requires kind.DateField? && FieldCoercion(kind, target).Some? && !KeepsComparisons(kind, target, kernel)
    ensures ValueFits(kind, v) && ShownCell(kind, target, v, kernel).Some?
    ensures !StandsFor(kind, ShownCell(kind, target, v, kernel).value, v)
  {
    if target.OtherTimestamp? && AtLeastAsCoarse(kind.precision, Microsecond) &&
       AtLeastAsCoarse(kind.precision, target.unit) {
      var nanos :| Fits(nanos, I64) && nanos % NanosPer(kind.precision) == 0 &&
        kernel.offset(target.zone.value, nanos) != 0;
      v := Instant(nanos);
      WholeMicrosAreRead(kind.precision, v);
      WholeUnitsAreKept(kind.precision, nanos, target.unit);
    } else {
      v := Instant(NanosPer(kind.precision));
      if target.OtherTimestamp? {
        OneUnitIsCut(kind.precision, target.unit);
      }
    }
  }

  /** A single unit of a precision that is too fine is cut off altogether. */
  lemma {:induction false} OneUnitIsCut(precision: TimeUnit, unit: TimeUnit)
    requires !AtLeastAsCoarse(precision, Microsecond) || !AtLeastAsCoarse(precision, unit)
    ensures ToUnit(Thousandth(NanosPer(precision)) * 1_000, unit) == 0
    ensures forall seconds: int :: NanosPer(precision) != -(seconds * 1_000_000_000)
  {
  }

  lemma {:induction false} Truncated(kind: FieldType, target: DataType, kernel: Kernel) returns (v: Value)
    requires kind.F64Field? && IntegerKind(target).Some?
    ensures FieldCoercion(kind, target) == Some(T.CastTo(target))
    ensures ValueFits(kind, v) && ShownCell(kind, target, v, kernel) == Some(Number(5.0)) && v == Number(5.7)
  {
    v := Number(5.7);
    assert Truncate(5.7) == 5;
    assert Fits(5, IntegerKind(target).value);
  }

  lemma {:induction false} Rounded(kind: FieldType, target: DataType, kernel: Kernel) returns (v: Value)
    requires kind.I64Field? || kind.U64Field? || kind.F64Field?
    requires target.Float16? || target.Float32? || (target.Float64? && !kind.F64Field?)
    requires RoundsAsIeee(kernel)
    ensures FieldCoercion(kind, target).Some? && ValueFits(kind, v) && ShownCell(kind, target, v, kernel).Some?
    ensures !StandsFor(kind, ShownCell(kind, target, v, kernel).value, v)
  {
    var n := if target.Float64? then 9_007_199_254_740_993 else if target.Float32? then 16_777_217 else 2_049;
    v := Number(n as real);
    assert FieldCoercion(kind, target) == Some(T.CastTo(target));
  }

  lemma {:induction false} Overflown(kernel: Kernel)
    ensures var v := Number(Highest(I64) as real);
      && ValueFits(I64Field, v) && FieldCoercion(I64Field, T.TimestampMicros).Some?
      && ShownCell(I64Field, T.TimestampMicros, v, kernel) == Some(Instant(-1_000_000))
  {
    assert Wrap64(Highest(I64) * 1_000) == -1_000;
  }

  lemma {:induction false} DistortedNumber(kind: FieldType, target: DataType, kernel: Kernel) returns (v: Value)
    requires kind.I64Field? || kind.U64Field? || kind.F64Field?
    requires RoundsAsIeee(kernel) && FieldCoercion(kind, target).Some? && !KeepsComparisons(kind, target, kernel)
    ensures ValueFits(kind, v) && ShownCell(kind, target, v, kernel).Some?
    ensures !StandsFor(kind, ShownCell(kind, target, v, kernel).value, v)
  {
    if target.TimestampMicros? {
      Overflown(kernel);
      v := Number(Highest(I64) as real);
    } else if IntegerKind(target).Some? {
      v := Truncated(kind, target, kernel);
    } else {
      v := Rounded(kind, target, kernel);
    }
  }

  lemma {:induction false} OthersStandFor(kind: FieldType, target: DataType, v: Value, kernel: Kernel)
    requires kind.BoolField? || kind.StrField? || kind.BytesField? || kind.IpField?
    requires ValueFits(kind, v) && FieldCoercion(kind, target).Some? && ShownCell(kind, target, v, kernel).Some?
    requires !target.List?
    ensures StandsFor(kind, ShownCell(kind, target, v, kernel).value, v)
  {
  }

  /** The condition on types is exact: it holds if and only if every cell stands for its value. */
  lemma {:induction false} KeepsComparisonsIsExact(kind: FieldType, target: DataType, kernel: Kernel)
    requires RoundsAsIeee(kernel) && FieldCoercion(kind, target).Some?
    ensures AlwaysStandsFor(kind, target, kernel) <==> KeepsComparisons(kind, target, kernel)
  {
    if KeepsComparisons(kind, target, kernel) {
      forall v | ValueFits(kind, v) && ShownCell(kind, target, v, kernel).Some?
        ensures StandsFor(kind, ShownCell(kind, target, v, kernel).value, v)
      {
        if target.List? {
          ListsStandFor(kind, target, v, kernel);
        } else if kind.DateField? {
          DatesStandFor(kind, target, v, kernel);
        } else if kind.I64Field? || kind.U64Field? || kind.F64Field? {
          NumbersStandFor(kind, target, v, kernel);
        } else {
          OthersStandFor(kind, target, v, kernel);
        }
      }
    } else if kind.DateField? {
      var v := DistortedDate(kind, target, kernel);
    } else {
      var v := DistortedNumber(kind, target, kernel);
    }
  }

  // ---------------------------------------------------------------------------
  // What that means for filters
  // ---------------------------------------------------------------------------

  /**
   Comparisons of a column are safe to push down, whatever its values and the literals, if and only if its field type
   and its type in the table are a pair that keeps comparisons. (Addresses have their own condition, which depends on
   the literal.)
  */
  lemma {:induction false} PushdownIsSafeWhen(kind: FieldType, target: DataType, kernel: Kernel)
    requires RoundsAsIeee(kernel) && FieldCoercion(kind, target).Some? && !kind.IpField?
    ensures (forall v, op, scalar :: ValueFits(kind, v) ==>
              !IsLost(kind, ShownCell(kind, target, v, kernel), v, op, scalar)) <==>
            KeepsComparisons(kind, target, kernel)
  {
    KeepsComparisonsIsExact(kind, target, kernel);
    if AlwaysStandsFor(kind, target, kernel) {
      forall v, op, scalar | ValueFits(kind, v)
        ensures !IsLost(kind, ShownCell(kind, target, v, kernel), v, op, scalar)
      {
        var cell := ShownCell(kind, target, v, kernel);
        StandingCellIsNotLost(kind, cell, v, op, scalar);
      }
    } else {
      var v :| ValueFits(kind, v) && ShownCell(kind, target, v, kernel).Some? &&
        !StandsFor(kind, ShownCell(kind, target, v, kernel).value, v);
      var op, scalar := DistortedCellIsLost(kind, ShownCell(kind, target, v, kernel).value, v);
    }
  }

  /** The types of a table's columns, and the kernel that casts to them. */
  datatype Table = Table(types: map<string, DataType>, kernel: Kernel)

  /** The document's cells are those the table shows of its fields, each under its own name. */
  ghost predicate ShownBy(table: Table, schema: Schema, doc: Doc)
    requires ValidDoc(schema, doc)
  {
    && (forall c :: c in doc.shown ==> c in doc.values && c in table.types)
    && (forall c :: c in doc.values && c in table.types ==>
          && FieldCoercion(schema[c].kind, table.types[c]).Some?
          && CellOfDoc(doc, c) == ShownCell(schema[c].kind, table.types[c], doc.values[c], table.kernel))
  }

  function CellOfDoc(doc: Doc, column: string): Option<Value> {
    if column in doc.shown then Some(doc.shown[column]) else None
  }

  predicate IsComparedIn(leaf: Expr, column: string) {
    match leaf
    case BinaryExpr(left, _, right) =>
      ColumnAndLiteral(left, right).Some? && ColumnAndLiteral(left, right).value.0 == column
    case _ => false
  }

  /** Every compared column has a type that keeps comparisons. */
  ghost predicate TypesKeep(expr: Expr, schema: Schema, table: Table) {
    forall leaf, column :: leaf in Leaves(expr) && IsComparedIn(leaf, column) ==>
      (column in schema && column in table.types ==>
         KeepsComparisons(schema[column].kind, table.types[column], table.kernel))
  }

  /** If the types keep comparisons, the cells of every document stand for its values. */
  lemma {:induction false} TypesKeepCells(expr: Expr, schema: Schema, doc: Doc, table: Table)
    requires RoundsAsIeee(table.kernel) && ValidDoc(schema, doc) && ShownBy(table, schema, doc)
    requires TypesKeep(expr, schema, table)
    ensures CellsStandFor(expr, schema, doc)
  {
    forall leaf | leaf in Leaves(expr)
      ensures LeafStandsFor(leaf, schema, doc)
    {
      if leaf.BinaryExpr? && ColumnAndLiteral(leaf.left, leaf.right).Some? {
        var column := ColumnAndLiteral(leaf.left, leaf.right).value.0;
        if column in doc.shown && column in schema {
          assert IsComparedIn(leaf, column);
          KeepsComparisonsIsExact(schema[column].kind, table.types[column], table.kernel);
        }
      }
    }
  }

  /** A column is NULL in every row of a split exactly when no field has its name, as its own or as its logical one. */
  lemma {:induction false} ColumnIsNullWhen(split: T.Schema, output: T.Field)
    ensures T.PlanSources(split, output) == Ok([]) <==>
            forall j :: 0 <= j < |split| ==> split[j].name != output.name && split[j].logical != Some(output.name)
  {
    if split == [] {
    } else {
      ColumnIsNullWhen(split[1..], output);
      assert forall j :: 1 <= j < |split| ==> split[j] == split[1..][j - 1];
    }
  }

  /** Where only columns of the index schema are shown, what is never TRUE of NULLs is never TRUE. */
  lemma {:induction false} NeverTrueOfNulls(expr: Expr, schema: Schema, doc: Doc)
    requires forall c :: c in doc.shown ==> c in schema
    ensures NeverTrue(expr, schema, doc) <==> NeverTrue(expr, schema, IdDoc(0))
  {
    if expr.BinaryExpr? && (expr.op.And? || expr.op.Or?) {
      NeverTrueOfNulls(expr.left, schema, doc);
      NeverTrueOfNulls(expr.right, schema, doc);
    }
  }

  /** A table whose types keep comparisons meets what the scan of a split asks of cells. */
  lemma {:induction false} TypesMakePushable(filters: seq<Expr>, splits: seq<Split>, i: nat, table: Table)
    requires i < |splits| && ValidSplit(splits[i]) && RoundsAsIeee(table.kernel)
    requires forall n :: 0 <= n < |splits[i].docs| ==> ShownBy(table, splits[i].schema, splits[i].docs[n])
    requires forall f :: f in filters && ReportFor(f, splits) == Inexact ==>
      && Pushable(f, splits[i].schema) && TypesKeep(f, splits[i].schema, table)
      && (Analyze(f, splits[i].schema).MissingField? ==> NeverTrue(f, splits[i].schema, IdDoc(0)))
    ensures PushableOn(filters, splits, i)
  {
    forall f, n | f in filters && ReportFor(f, splits) == Inexact && 0 <= n < |splits[i].docs|
      ensures ShownFaithfully(f, splits[i].schema, splits[i].docs[n])
    {
      TypesKeepCells(f, splits[i].schema, splits[i].docs[n], table);
      NeverTrueOfNulls(f, splits[i].schema, splits[i].docs[n]);
    }
  }
}
