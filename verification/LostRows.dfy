/**
 Filters that are pushed down and lose rows: what the conditions of the pushdown theorems shut out, with the exact
 conditions where they depend on the literal.
*/
module LostRows {
  import opened Prelude
  import opened Expressions
  import opened IndexQueries
  import opened FilterTranslation
  import opened Pushdown
  import opened ShownCells

  /** A single filter lets nothing through where a field is missing, and otherwise what its query matches. */
  lemma {:induction false} OneFilterMeaning(filter: Expr, schema: Schema, doc: Doc)
    ensures Analyze(filter, schema) == MissingField ==> !PushedMeaning([filter], schema, doc)
    ensures Analyze(filter, schema) == Support.Query && Translate(filter, schema).Some? ==>
      (PushedMeaning([filter], schema, doc) <==> Matches(Translate(filter, schema).value, schema, doc))
  {
    FirstUnansweredIs([filter], schema, if Analyze(filter, schema).Query? then 1 else 0);
    assert [filter][0] == filter;
  }

  lemma {:induction false} OneSplitIsSafe(filter: Expr, split: Split)
    requires Analyze(filter, split.schema) == Support.Query
    ensures PushdownSafe(filter, [split])
  {
    assert [split][0] == split;
  }

  /** A comparison that does not hold for the value in the index is not matched. */
  lemma {:induction false} LeafIsNotPushed(left: Expr, op: Operator, right: Expr, schema: Schema, doc: Doc)
    requires ValidDoc(schema, doc) && !op.And? && !op.Or?
    requires Analyze(BinaryExpr(left, op, right), schema) == Support.Query
    requires TranslateLeaf(left, op, right, schema).Some?
    requires var (column, scalar, columnOnLeft) := ColumnAndLiteral(left, right).value;
      column in doc.values &&
      !Holds(
        doc.values[column], ColumnOperator(op, columnOnLeft).value, ScalarToTerm(schema[column].kind, scalar).value)
    ensures !PushedMeaning([BinaryExpr(left, op, right)], schema, doc)
  {
    LeafQueryMeaning(left, op, right, schema, doc);
    OneFilterMeaning(BinaryExpr(left, op, right), schema, doc);
  }

  function NumberField(): FieldEntry {
    FieldEntry(I64Field, true, true)
  }

  function EqualsNumber(column: string, n: int): Expr {
    BinaryExpr(Column(column), Eq, Literal(Int(I64, Some(n))))
  }

  lemma {:induction false} EqualsNumberIsAnswered(column: string, n: int)
    requires Fits(n, I64)
    ensures Analyze(EqualsNumber(column, n), map[column := NumberField()]) == Support.Query
    ensures Analyze(EqualsNumber(column, n), map[]) == MissingField
  {
  }

  lemma {:induction false} EqualsIdIsMissing(id: nat, schema: Schema)
    requires DOC_ID !in schema
    ensures Analyze(EqualsNumber(DOC_ID, id), schema) == MissingField
    ensures Eval(EqualsNumber(DOC_ID, id), RowOf(IdDoc(id))) == True
  {
  }

  /** `_doc_id = 3 OR id = 5`, pushed down because one split has `id`, drops document 3 of a split without it. */
  lemma {:induction false} InternalColumnLosesRows()
    ensures
      var filter := BinaryExpr(EqualsNumber(DOC_ID, 3), Or, EqualsNumber("id", 5));
      var splits := [Split(map["id" := NumberField()], [], {}), Split(map[], [IdDoc(3)], {})];
      && ValidSplit(splits[0]) && ValidSplit(splits[1])
      && PushdownSafe(filter, splits)
      && Eval(filter, RowOf(IdDoc(3))) == True
      && !PushedMeaning([filter], splits[1].schema, IdDoc(3))
  {
    var filter := BinaryExpr(EqualsNumber(DOC_ID, 3), Or, EqualsNumber("id", 5));
    var schema: Schema := map["id" := NumberField()];
    var splits := [Split(schema, [], {}), Split(map[], [IdDoc(3)], {})];
    EqualsNumberIsAnswered("id", 5);
    EqualsIdIsMissing(3, schema);
    EqualsIdIsMissing(3, map[]);
    assert Analyze(filter, splits[0].schema) == Support.Query && Analyze(filter, splits[1].schema) == MissingField;
    OneFilterMeaning(filter, splits[1].schema, IdDoc(3));
  }

  /** `a IS DISTINCT FROM 5 OR b = 1` with `a` in no split drops every document of a split without `b`. */
  lemma {:induction false} NullSafeComparisonLosesRows()
    ensures
      var filter := BinaryExpr(
        BinaryExpr(Column("a"), IsDistinctFrom, Literal(Int(I64, Some(5)))), Or, EqualsNumber("b", 1));
      var splits := [Split(map["b" := NumberField()], [], {}), Split(map[], [IdDoc(0)], {})];
      && ValidSplit(splits[0]) && ValidSplit(splits[1])
      && PushdownSafe(filter, splits)
      && Eval(filter, RowOf(IdDoc(0))) == True
      && !PushedMeaning([filter], splits[1].schema, IdDoc(0))
  {
    var distinct := BinaryExpr(Column("a"), IsDistinctFrom, Literal(Int(I64, Some(5))));
    var filter := BinaryExpr(distinct, Or, EqualsNumber("b", 1));
    var schema: Schema := map["b" := NumberField()];
    var splits := [Split(schema, [], {}), Split(map[], [IdDoc(0)], {})];
    EqualsNumberIsAnswered("b", 1);
    assert Analyze(distinct, schema) == MissingField && Analyze(distinct, map[]) == MissingField;
    assert Analyze(filter, splits[0].schema) == Support.Query && Analyze(filter, splits[1].schema) == MissingField;
    assert Eval(distinct, RowOf(IdDoc(0))) == True;
    OneFilterMeaning(filter, splits[1].schema, IdDoc(0));
  }

  /**
   `x = 5`, pushed down because one split has a field `x`, drops document 0 of a split that shows its field `x_i64`
   under the logical name `x`.
  */
  lemma {:induction false} AliasedColumnLosesRows()
    ensures
      var filter := EqualsNumber("x", 5);
      var doc := Doc(0, 0, map["x_i64" := Number(5.0)], map["x" := Number(5.0)], {}, map[]);
      var splits := [Split(map["x" := NumberField()], [], {}), Split(map["x_i64" := NumberField()], [doc], {})];
      && ValidSplit(splits[0]) && ValidSplit(splits[1])
      && PushdownSafe(filter, splits)
      && Eval(filter, RowOf(doc)) == True
      && !PushedMeaning([filter], splits[1].schema, doc)
  {
    var filter := EqualsNumber("x", 5);
    var doc := Doc(0, 0, map["x_i64" := Number(5.0)], map["x" := Number(5.0)], {}, map[]);
    var schema: Schema := map["x_i64" := NumberField()];
    var splits := [Split(map["x" := NumberField()], [], {}), Split(schema, [doc], {})];
    EqualsNumberIsAnswered("x", 5);
    assert Analyze(filter, splits[0].schema) == Support.Query && Analyze(filter, splits[1].schema) == MissingField;
    OneFilterMeaning(filter, schema, doc);
  }

  // ---------------------------------------------------------------------------
  // Addresses
  // ---------------------------------------------------------------------------

  function AddressSchema(column: string, table: AddressTable, indexed: bool): Schema {
    map[column := FieldEntry(IpField(table), true, indexed)]
  }

  /** `column op b`, or `b op column`. */
  function AddressLeaf(column: string, op: Operator, b: string, columnOnLeft: bool): Expr {
    if columnOnLeft then BinaryExpr(Column(column), op, Literal(Utf8(Some(b))))
    else BinaryExpr(Literal(Utf8(Some(b))), op, Column(column))
  }

  function AddressDoc(column: string, a: nat, table: AddressTable): Doc
    requires IsAddress(table, a)
  {
    Doc(0, 0, map[column := Address(a)], map[column := Text(table.names[a])], {}, map[])
  }

  /** A document that the filter is TRUE of, as its address is written, and that the pushed query drops. */
  ghost predicate IsDropped(filter: Expr, schema: Schema, doc: Doc) {
    && ValidDoc(schema, doc) && CellsStandFor(filter, schema, doc)
    && Eval(filter, RowOf(doc)) == True && !PushedMeaning([filter], schema, doc)
  }

  lemma {:induction false} AddressLeafMeaning(
      column: string, op: Operator, b: string, columnOnLeft: bool, table: AddressTable, indexed: bool)
    requires IsComparison(op) && b in table.parse
    ensures var leaf, schema := AddressLeaf(column, op, b, columnOnLeft), AddressSchema(column, table, indexed);
      && Analyze(leaf, schema) == Support.Query && Translate(leaf, schema).Some?
      && Translate(leaf, schema) == TranslateLeaf(leaf.left, op, leaf.right, schema)
    ensures ColumnOperator(op, columnOnLeft).Some? && IsComparison(ColumnOperator(op, columnOnLeft).value)
  {
  }

  lemma {:induction false} SafeAddressIsNotDropped(
      column: string, op: Operator, b: string, columnOnLeft: bool, table: AddressTable, indexed: bool, doc: Doc)
    requires IsComparison(op) && b in table.parse && !IsInternal(column)
    requires AddressSafe(ColumnOperator(op, columnOnLeft).value, b, table)
    ensures !IsDropped(AddressLeaf(column, op, b, columnOnLeft), AddressSchema(column, table, indexed), doc)
  {
    var leaf, schema := AddressLeaf(column, op, b, columnOnLeft), AddressSchema(column, table, indexed);
    AddressLeafMeaning(column, op, b, columnOnLeft, table, indexed);
    OneFilterMeaning(leaf, schema, doc);
    assert leaf in Leaves(leaf);
    if ValidDoc(schema, doc) && CellsStandFor(leaf, schema, doc) {
      LeafIsKept(leaf.left, op, leaf.right, schema, doc);
    }
  }

  lemma {:induction false} UnsafeAddressIsDropped(
      column: string, op: Operator, b: string, columnOnLeft: bool, table: AddressTable, indexed: bool)
    returns (doc: Doc)
    requires IsComparison(op) && b in table.parse && !IsInternal(column)
    requires !AddressSafe(ColumnOperator(op, columnOnLeft).value, b, table)
    ensures IsDropped(AddressLeaf(column, op, b, columnOnLeft), AddressSchema(column, table, indexed), doc)
  {
    var leaf, schema := AddressLeaf(column, op, b, columnOnLeft), AddressSchema(column, table, indexed);
    AddressLeafMeaning(column, op, b, columnOnLeft, table, indexed);
    var columnOp := ColumnOperator(op, columnOnLeft).value;
    var a := UnsafeAddressIsLost(columnOp, b, table);
    doc := AddressDoc(column, a, table);
    AddressDocIsValid(column, op, b, columnOnLeft, a, table, indexed);
    LeafIsNotPushed(leaf.left, op, leaf.right, schema, doc);
    AddressLeafIsTrue(column, op, b, columnOnLeft, a, table);
  }

  lemma {:induction false} AddressDocIsValid(
      column: string, op: Operator, b: string, columnOnLeft: bool, a: nat, table: AddressTable, indexed: bool)
    requires IsComparison(op) && IsAddress(table, a)
    ensures ValidDoc(AddressSchema(column, table, indexed), AddressDoc(column, a, table))
    ensures CellsStandFor(
      AddressLeaf(column, op, b, columnOnLeft), AddressSchema(column, table, indexed), AddressDoc(column, a, table))
  {
    var leaf := AddressLeaf(column, op, b, columnOnLeft);
    assert Leaves(leaf) == {leaf};
  }

  lemma {:induction false} AddressLeafIsTrue(
      column: string, op: Operator, b: string, columnOnLeft: bool, a: nat, table: AddressTable)
    requires IsComparison(op) && !IsInternal(column) && IsAddress(table, a)
    requires ColumnOperator(op, columnOnLeft).Some? && TextHolds(a, ColumnOperator(op, columnOnLeft).value, b, table)
    ensures Eval(AddressLeaf(column, op, b, columnOnLeft), RowOf(AddressDoc(column, a, table))) == True
  {
    ColumnFirstComparison(Text(table.names[a]), op, Utf8(Some(b)), columnOnLeft);
    assert CellOf(RowOf(AddressDoc(column, a, table)), column) == Some(Text(table.names[a]));
  }

  /**
   For all six operators and both operand orders: a comparison of an address column is pushed down, and it never drops
   a row if and only if the literal is safe for the operator as it stands after the column.
  */
  lemma {:induction false} AddressComparisonIsSafeWhen(
      column: string, op: Operator, b: string, columnOnLeft: bool, table: AddressTable, indexed: bool)
    requires IsComparison(op) && b in table.parse && !IsInternal(column)
    ensures ColumnOperator(op, columnOnLeft).Some?
    ensures Analyze(AddressLeaf(column, op, b, columnOnLeft), AddressSchema(column, table, indexed)) == Support.Query
    ensures
      (forall doc ::
        !IsDropped(AddressLeaf(column, op, b, columnOnLeft), AddressSchema(column, table, indexed), doc)) <==>
      AddressSafe(ColumnOperator(op, columnOnLeft).value, b, table)
  {
    AddressLeafMeaning(column, op, b, columnOnLeft, table, indexed);
    if AddressSafe(ColumnOperator(op, columnOnLeft).value, b, table) {
      forall doc
        ensures !IsDropped(AddressLeaf(column, op, b, columnOnLeft), AddressSchema(column, table, indexed), doc)
      {
        SafeAddressIsNotDropped(column, op, b, columnOnLeft, table, indexed, doc);
      }
    } else {
      var doc := UnsafeAddressIsDropped(column, op, b, columnOnLeft, table, indexed);
    }
  }

  /** Two texts of one address, and another address that is smaller as text and larger as number. */
  function Addresses(): AddressTable {
    AddressTable(
      map[0x0900_0000 := "9.0.0.0", 0x0A00_0001 := "10.0.0.1"],
      map["9.0.0.0" := 0x0900_0000, "10.0.0.1" := 0x0A00_0001, "::ffff:10.0.0.1" := 0x0A00_0001])
  }

  /** `ip < '9.0.0.0'` drops the address 10.0.0.1. */
  lemma {:induction false} AddressOrderLosesRows()
    ensures exists doc :: IsDropped(AddressLeaf("ip", Lt, "9.0.0.0", true), AddressSchema("ip", Addresses(), true), doc)
  {
    assert CharCodes("10.0.0.1")[0] < CharCodes("9.0.0.0")[0];
    assert IsAddress(Addresses(), 0x0A00_0001) && TextLess(Addresses().names[0x0A00_0001], "9.0.0.0");
    var doc := UnsafeAddressIsDropped("ip", Lt, "9.0.0.0", true, Addresses(), true);
  }

  /** `ip != '::ffff:10.0.0.1'` drops the address 10.0.0.1, which is written otherwise. */
  lemma {:induction false} AddressInequalityLosesRows()
    ensures exists doc ::
      IsDropped(AddressLeaf("ip", NotEq, "::ffff:10.0.0.1", true), AddressSchema("ip", Addresses(), true), doc)
  {
    assert IsAddress(Addresses(), 0x0A00_0001) && Addresses().names[0x0A00_0001] != "::ffff:10.0.0.1";
    var doc := UnsafeAddressIsDropped("ip", NotEq, "::ffff:10.0.0.1", true, Addresses(), true);
  }

  // ---------------------------------------------------------------------------
  // Coerced cells
  // ---------------------------------------------------------------------------

  /** A document with one value and a cell for it. */
  function CellDoc(v: Value, cell: Option<Value>): Doc {
    Doc(0, 0, map["x" := v], if cell.Some? then map["x" := cell.value] else map[], {}, map[])
  }

  function OneField(kind: FieldType): Schema {
    map["x" := FieldEntry(kind, true, false)]
  }

  function CompareX(op: Operator, scalar: Scalar): Expr {
    BinaryExpr(Column("x"), op, Literal(scalar))
  }

  lemma {:induction false} LostCellIsLostRow(
      kind: FieldType, cell: Option<Value>, v: Value, op: Operator, scalar: Scalar)
    requires ValueFits(kind, v) && IsLost(kind, cell, v, op, scalar)
    ensures ValidDoc(OneField(kind), CellDoc(v, cell))
    ensures Analyze(CompareX(op, scalar), OneField(kind)) == Support.Query
    ensures Eval(CompareX(op, scalar), RowOf(CellDoc(v, cell))) == True
    ensures !PushedMeaning([CompareX(op, scalar)], OneField(kind), CellDoc(v, cell))
  {
    var schema, filter, doc := OneField(kind), CompareX(op, scalar), CellDoc(v, cell);
    assert Translate(filter, schema) == TranslateLeaf(filter.left, op, filter.right, schema);
    LeafIsNotPushed(filter.left, op, filter.right, schema, doc);
    assert CellOf(RowOf(doc), "x") == cell;
  }

  /** The document is one of a table that shows the column under the target type. */
  ghost predicate IsShownDoc(kind: FieldType, target: DataType, kernel: Kernel, doc: Doc) {
    ValidDoc(OneField(kind), doc) && ShownBy(Table(map["x" := target], kernel), OneField(kind), doc)
  }

  lemma {:induction false} CellDocIsShown(kind: FieldType, target: DataType, v: Value, kernel: Kernel)
    requires ValueFits(kind, v) && FieldCoercion(kind, target).Some?
    ensures IsShownDoc(kind, target, kernel, CellDoc(v, ShownCell(kind, target, v, kernel)))
  {
    var cell := ShownCell(kind, target, v, kernel);
    assert CellOfDoc(CellDoc(v, cell), "x") == cell;
  }

  /** A lost value of a column is a lost row of a table that shows the column under the target type. */
  lemma {:induction false} LostValueIsLostRow(
      kind: FieldType, target: DataType, v: Value, kernel: Kernel, op: Operator, scalar: Scalar)
    requires ValueFits(kind, v) && FieldCoercion(kind, target).Some?
    requires IsLost(kind, ShownCell(kind, target, v, kernel), v, op, scalar)
    ensures var doc := CellDoc(v, ShownCell(kind, target, v, kernel));
      && IsShownDoc(kind, target, kernel, doc)
      && PushdownSafe(CompareX(op, scalar), [Split(OneField(kind), [doc], {})])
      && Eval(CompareX(op, scalar), RowOf(doc)) == True && !PushedMeaning([CompareX(op, scalar)], OneField(kind), doc)
  {
    var cell := ShownCell(kind, target, v, kernel);
    LostCellIsLostRow(kind, cell, v, op, scalar);
    CellDocIsShown(kind, target, v, kernel);
    OneSplitIsSafe(CompareX(op, scalar), Split(OneField(kind), [CellDoc(v, cell)], {}));
  }

  lemma {:induction false} TruncatedIsLost(kernel: Kernel)
    ensures FieldCoercion(F64Field, T.Int64).Some?
    ensures ShownCell(F64Field, T.Int64, Number(5.7), kernel) == Some(Number(5.0))
    ensures IsLost(F64Field, Some(Number(5.0)), Number(5.7), Eq, Int(I64, Some(5)))
    ensures IsLost(F64Field, Some(Number(5.0)), Number(5.7), LtEq, Int(I64, Some(5)))
  {
    var v := Truncated(F64Field, T.Int64, kernel);
  }

  /**
   5.7, in a float field that the table shows as integers, is shown as 5. It is dropped by `x = 5`, which is pushed
   down and TRUE of the row, and by `x <= 5`.
  */
  lemma {:induction false} TruncationLosesRows(kernel: Kernel)
    ensures FieldCoercion(F64Field, T.Int64).Some?
    ensures ShownCell(F64Field, T.Int64, Number(5.7), kernel) == Some(Number(5.0))
    ensures IsLost(F64Field, Some(Number(5.0)), Number(5.7), LtEq, Int(I64, Some(5)))
    ensures
      var filter, schema := CompareX(Eq, Int(I64, Some(5))), OneField(F64Field);
      var doc := CellDoc(Number(5.7), Some(Number(5.0)));
      && IsShownDoc(F64Field, T.Int64, kernel, doc) && PushdownSafe(filter, [Split(schema, [doc], {})])
      && Eval(filter, RowOf(doc)) == True && !PushedMeaning([filter], schema, doc)
  {
    TruncatedIsLost(kernel);
    LostValueIsLostRow(F64Field, T.Int64, Number(5.7), kernel, Eq, Int(I64, Some(5)));
  }

  /** A date of 1500 nanoseconds is read as 1 microsecond and dropped by `ts <= 1 microsecond`. */
  lemma {:induction false} NanosecondsLoseRows(kernel: Kernel)
    ensures FieldCoercion(DateField(Nanosecond), T.TimestampMicros).Some?
    ensures ShownCell(DateField(Nanosecond), T.TimestampMicros, Instant(1_500), kernel) == Some(Instant(1_000))
    ensures IsLost(
      DateField(Nanosecond), Some(Instant(1_000)), Instant(1_500), LtEq, Timestamp(Microsecond, Some(1), None))
  {
  }

  /** Epoch milliseconds that overflow as microseconds are shown before 1970 and dropped by `ts < 0`. */
  lemma {:induction false} OverflowLosesRows(kernel: Kernel)
    ensures FieldCoercion(I64Field, T.TimestampMicros).Some?
    ensures ShownCell(I64Field, T.TimestampMicros, Number(Highest(I64) as real), kernel) == Some(Instant(-1_000_000))
    ensures IsLost(
      I64Field, Some(Instant(-1_000_000)), Number(Highest(I64) as real), Lt, Timestamp(Millisecond, Some(0), None))
  {
    Overflown(kernel);
  }
}
