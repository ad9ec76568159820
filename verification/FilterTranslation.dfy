/**
 Translation of fast-field filters to index queries, and the analysis that decides which filters are
 pushed down.
*/
module FilterTranslation {
  import opened Prelude
  import opened Expressions
  import opened IndexQueries

  datatype Support = Query | MissingField | Unsupported

  /** Float literals below this magnitude are exact doubles, and so is every comparison with them. */
  const EXACT_FLOAT := 9_007_199_254_740_992

  // ---------------------------------------------------------------------------
  // Literals to terms
  // ---------------------------------------------------------------------------

  /** A float literal for an integer field: whole numbers only; the cast saturates at the bounds. */
  function FloatToInteger(v: real, lowest: int, highest: int): Option<int> {
    if v.Floor as real != v || v > (highest + 1) as real || v < lowest as real then None
    else Some(Min(v.Floor, highest))
  }

  function IntegerTerm(scalar: Scalar, kind: IntKind): Option<int> {
    match scalar
    case Int(_, Some(v)) => if Fits(v, kind) then Some(v) else None
    case Timestamp(Millisecond, Some(t), _) => if kind == I64 then Some(t) else None
    case Float64(Some(v)) => FloatToInteger(v, Lowest(kind), Highest(kind))
    case _ => None
  }

  function ScalarToTerm(kind: FieldType, scalar: Scalar): Option<Value> {
    match (kind, scalar)
    case (I64Field, _) =>
      var v :- IntegerTerm(scalar, I64);
      Some(Number(v as real))
    case (U64Field, _) =>
      var v :- IntegerTerm(scalar, U64);
      Some(Number(v as real))
    case (F64Field, Float64(Some(v))) => Some(Number(v))
    case (F64Field, Float32(Some(v))) => Some(Number(v))
    case (F64Field, Int(_, Some(v))) => Some(Number(v as real))
    case (BoolField, Boolean(Some(b))) => Some(Flag(b))
    case (StrField, Utf8(Some(s))) => Some(Text(s))
    case (DateField(_), Timestamp(unit, Some(t), _)) => Some(Instant(t * NanosPer(unit)))
    case (IpField(table), Utf8(Some(s))) =>
      if s in table.parse then Some(Address(table.parse[s])) else None
    case (BytesField, Binary(Some(bs))) => Some(Bytes(bs))
    case _ => None
  }

  // ---------------------------------------------------------------------------
  // Expressions to queries
  // ---------------------------------------------------------------------------

  function FlipOperator(op: Operator): Option<Operator> {
    match op
    case Eq => Some(Eq)
    case NotEq => Some(NotEq)
    case Gt => Some(Lt)
    case GtEq => Some(LtEq)
    case Lt => Some(Gt)
    case LtEq => Some(GtEq)
    case _ => None
  }

  function ComparisonQuery(field: string, entry: FieldEntry, op: Operator, term: Value): Option<Query> {
    match op
    case Eq =>
      if entry.indexed && entry.kind != StrField then Some(TermQuery(field, term))
      else Some(RangeQuery(field, Included(term), Included(term)))
    case Gt => Some(RangeQuery(field, Excluded(term), Unbounded))
    case GtEq => Some(RangeQuery(field, Included(term), Unbounded))
    case Lt => Some(RangeQuery(field, Unbounded, Excluded(term)))
    case LtEq => Some(RangeQuery(field, Unbounded, Included(term)))
    case NotEq =>
      Some(Union([RangeQuery(field, Unbounded, Excluded(term)), RangeQuery(field, Excluded(term), Unbounded)]))
    case _ => None
  }

  function TranslateLeaf(left: Expr, op: Operator, right: Expr, schema: Schema): Option<Query> {
    var (column, scalar, columnOnLeft) :- ColumnAndLiteral(left, right);
    if column !in schema || !schema[column].fast then None
    else
      var columnOp :- if columnOnLeft then Some(op) else FlipOperator(op);
      var term :- ScalarToTerm(schema[column].kind, scalar);
      ComparisonQuery(column, schema[column], columnOp, term)
  }

  function Translate(expr: Expr, schema: Schema): Option<IndexQueries.Query> {
    match expr
    case BinaryExpr(left, And, right) =>
      var l :- Translate(left, schema);
      var r :- Translate(right, schema);
      Some(Intersection([l, r]))
    case BinaryExpr(left, Or, right) =>
      var l :- Translate(left, schema);
      var r :- Translate(right, schema);
      Some(Union([l, r]))
    case BinaryExpr(left, op, right) => TranslateLeaf(left, op, right, schema)
    case _ => None
  }

  // ---------------------------------------------------------------------------
  // Support analysis
  // ---------------------------------------------------------------------------

  function CombineAnd(left: Support, right: Support): Support {
    if left.Unsupported? || right.Unsupported? then Unsupported
    else if left.MissingField? || right.MissingField? then MissingField
    else Support.Query
  }

  function CombineOr(left: Support, right: Support): Support {
    if left.Unsupported? || right.Unsupported? then Unsupported
    else if left.Query? || right.Query? then Support.Query
    else MissingField
  }

  function Analyze(expr: Expr, schema: Schema): Support {
    match expr
    case BinaryExpr(left, And, right) => CombineAnd(Analyze(left, schema), Analyze(right, schema))
    case BinaryExpr(left, Or, right) => CombineOr(Analyze(left, schema), Analyze(right, schema))
    case BinaryExpr(left, op, right) => (
      match ColumnAndLiteral(left, right)
      case None => Unsupported
      case Some((column, _, _)) =>
        if column !in schema then MissingField
        else if Translate(expr, schema).Some? then Support.Query
        else Unsupported
    )
    case _ => Unsupported
  }

  /** An integer in the bounds, or a double that is a whole number in them or just above the upper one. */
  predicate IsWholeWithin(scalar: Scalar, low: int, high: int) {
    match scalar
    case Int(_, Some(v)) => low <= v <= high
    case Float64(Some(v)) => v == v.Floor as real && low as real <= v <= (high + 1) as real
    case _ => false
  }

  /** The literals that a field of that type can be compared with in the index. */
  predicate HasTerm(kind: FieldType, scalar: Scalar) {
    match kind
    case I64Field =>
      IsWholeWithin(scalar, -0x8000_0000_0000_0000, 0x7FFF_FFFF_FFFF_FFFF) ||
      (scalar.Timestamp? && scalar.unit.Millisecond? && !IsNull(scalar))
    case U64Field => IsWholeWithin(scalar, 0, 0xFFFF_FFFF_FFFF_FFFF)
    case F64Field => !IsNull(scalar) && (scalar.Int? || scalar.Float32? || scalar.Float64?)
    case BoolField => !IsNull(scalar) && scalar.Boolean?
    case StrField => !IsNull(scalar) && scalar.Utf8?
    case BytesField => !IsNull(scalar) && scalar.Binary?
    case DateField(_) => !IsNull(scalar) && scalar.Timestamp?
    case IpField(table) => scalar.Utf8? && scalar.text.Some? && scalar.text.value in table.parse
    case FacetField => false
    case JsonField => false
  }

  /** A literal becomes a term of a field exactly when it is one of those; an address is what its text reads as. */
  lemma {:induction false} TermExistsWhen(kind: FieldType, scalar: Scalar)
    ensures ScalarToTerm(kind, scalar).Some? <==> HasTerm(kind, scalar)
    ensures kind.IpField? && HasTerm(kind, scalar) ==>
      ScalarToTerm(kind, scalar) == Some(Address(kind.table.parse[scalar.text.value]))
  {
  }

  /** The leaf compares a column with a literal, in either order. */
  ghost predicate IsColumnLeaf(leaf: Expr, column: string, scalar: Scalar) {
    leaf.BinaryExpr? &&
    ((leaf.left == Column(column) && leaf.right == Literal(scalar)) ||
     (leaf.left == Literal(scalar) && leaf.right == Column(column)))
  }

  /** The leaf has a query: one of six operators, on a fast field, with a literal that has a term. */
  ghost predicate LeafTranslates(leaf: Expr, schema: Schema) {
    exists column, scalar :: IsColumnLeaf(leaf, column, scalar) && IsComparison(leaf.op) &&
      column in schema && schema[column].fast && HasTerm(schema[column].kind, scalar)
  }

  /** The leaf is about a column the index lacks. */
  ghost predicate LeafIsMissing(leaf: Expr, schema: Schema) {
    exists column, scalar :: IsColumnLeaf(leaf, column, scalar) && column !in schema
  }

  /** Whether an AND-OR tree can hold when its leaves about columns that the index lacks cannot. */
  ghost predicate CanHold(expr: Expr, schema: Schema) {
    match expr
    case BinaryExpr(left, And, right) => CanHold(left, schema) && CanHold(right, schema)
    case BinaryExpr(left, Or, right) => CanHold(left, schema) || CanHold(right, schema)
    case _ => !LeafIsMissing(expr, schema)
  }

  lemma {:induction false} LeafIs(left: Expr, op: Operator, right: Expr, column: string, scalar: Scalar)
    ensures IsColumnLeaf(BinaryExpr(left, op, right), column, scalar) <==>
            ColumnAndLiteral(left, right) == Some((column, scalar, true)) ||
            ColumnAndLiteral(left, right) == Some((column, scalar, false))
  {
  }

  lemma {:induction false} LeafTranslatesWhen(left: Expr, op: Operator, right: Expr, schema: Schema)
    requires !op.And? && !op.Or?
    ensures TranslateLeaf(left, op, right, schema).Some? <==> LeafTranslates(BinaryExpr(left, op, right), schema)
    ensures Analyze(BinaryExpr(left, op, right), schema).MissingField? <==>
            LeafIsMissing(BinaryExpr(left, op, right), schema)
  {
    var leaf := BinaryExpr(left, op, right);
    forall column, scalar
      ensures IsColumnLeaf(leaf, column, scalar) <==>
              ColumnAndLiteral(left, right) == Some((column, scalar, true)) ||
              ColumnAndLiteral(left, right) == Some((column, scalar, false))
    {
      LeafIs(left, op, right, column, scalar);
    }
    if ColumnAndLiteral(left, right).Some? {
      var (column, scalar, columnOnLeft) := ColumnAndLiteral(left, right).value;
      assert IsColumnLeaf(leaf, column, scalar);
      if column in schema {
        TermExistsWhen(schema[column].kind, scalar);
      }
    }
  }

  /** A filter has a query on a split exactly when all its leaves have one. */
  lemma {:induction false} TranslatesWhen(expr: Expr, schema: Schema)
    ensures Translate(expr, schema).Some? <==> forall leaf :: leaf in Leaves(expr) ==> LeafTranslates(leaf, schema)
  {
    if expr.BinaryExpr? && (expr.op.And? || expr.op.Or?) {
      TranslatesWhen(expr.left, schema);
      TranslatesWhen(expr.right, schema);
    } else {
      assert expr in Leaves(expr);
      if expr.BinaryExpr? {
        LeafTranslatesWhen(expr.left, expr.op, expr.right, schema);
      }
    }
  }

  /** Every leaf has a query on the split, or is about a column the split lacks. */
  ghost predicate IsAnswerable(expr: Expr, schema: Schema) {
    forall leaf :: leaf in Leaves(expr) ==> LeafTranslates(leaf, schema) || LeafIsMissing(leaf, schema)
  }

  /**
   The analysis: unsupported if some leaf neither has a query nor is about a missing column; else a query if the tree
   can hold without the missing columns.
  */
  lemma {:induction false} AnalysisMeaning(expr: Expr, schema: Schema)
    ensures Analyze(expr, schema).Unsupported? <==> !IsAnswerable(expr, schema)
    ensures IsAnswerable(expr, schema) ==> (Analyze(expr, schema).Query? <==> CanHold(expr, schema))
  {
    if expr.BinaryExpr? && (expr.op.And? || expr.op.Or?) {
      AnalysisMeaning(expr.left, schema);
      AnalysisMeaning(expr.right, schema);
    } else {
      assert expr in Leaves(expr);
      if expr.BinaryExpr? {
        LeafTranslatesWhen(expr.left, expr.op, expr.right, schema);
      }
    }
  }

  ghost predicate PushdownSafe(expr: Expr, splits: seq<Split>) {
    && (forall i :: 0 <= i < |splits| ==> !Analyze(expr, splits[i].schema).Unsupported?)
    && (exists i :: 0 <= i < |splits| && Analyze(expr, splits[i].schema).Query?)
  }

  method FilterIsPushdownSafe(expr: Expr, splits: seq<Split>) returns (safe: bool)
    ensures safe <==> PushdownSafe(expr, splits)
    ensures safe <==>
            (forall i :: 0 <= i < |splits| ==> IsAnswerable(expr, splits[i].schema)) &&
            (exists i :: 0 <= i < |splits| && CanHold(expr, splits[i].schema))
  {
    var anyQuery := false;
    forall i | 0 <= i < |splits|
      ensures Analyze(expr, splits[i].schema).Unsupported? <==> !IsAnswerable(expr, splits[i].schema)
      ensures IsAnswerable(expr, splits[i].schema) ==>
        (Analyze(expr, splits[i].schema).Query? <==> CanHold(expr, splits[i].schema))
    {
      AnalysisMeaning(expr, splits[i].schema);
    }
    for n := 0 to |splits|
      invariant forall i :: 0 <= i < n ==> !Analyze(expr, splits[i].schema).Unsupported?
      invariant anyQuery <==> exists i :: 0 <= i < n && Analyze(expr, splits[i].schema).Query?
    {
      match Analyze(expr, splits[n].schema)
      case Query => anyQuery := true;
      case MissingField =>
      case Unsupported => return false;
    }
    return anyQuery;
  }

  // ---------------------------------------------------------------------------
  // What the translation means
  // ---------------------------------------------------------------------------

  /** The leaves of a filter: the comparisons under its ANDs and ORs. */
  function Leaves(expr: Expr): set<Expr> {
    match expr
    case BinaryExpr(left, op, right) =>
      if op.And? || op.Or? then Leaves(left) + Leaves(right) else {expr}
    case _ => {expr}
  }

  /**
   Whether a literal is a value of its type, and the term it becomes is the same value: a float for an integer field
   must be below the bound to which doubles are exact, and an instant must fit the index.
  */
  predicate LiteralIsExact(kind: FieldType, scalar: Scalar) {
    && WellTyped(scalar)
    && (match (kind, scalar)
        case (I64Field, Float64(Some(v))) => -(EXACT_FLOAT as real) < v < EXACT_FLOAT as real
        case (U64Field, Float64(Some(v))) => -(EXACT_FLOAT as real) < v < EXACT_FLOAT as real
        case (DateField(_), Timestamp(unit, Some(t), _)) => Fits(t * NanosPer(unit), I64)
        case _ => true)
  }

  predicate LeafIsExact(leaf: Expr, schema: Schema) {
    match leaf
    case BinaryExpr(left, _, right) => (
      match ColumnAndLiteral(left, right)
      case Some((column, scalar, _)) => column in schema ==> LiteralIsExact(schema[column].kind, scalar)
      case None => true
    )
    case _ => true
  }

  ghost predicate ExactLiterals(expr: Expr, schema: Schema) {
    forall leaf :: leaf in Leaves(expr) ==> LeafIsExact(leaf, schema)
  }

  // ---------------------------------------------------------------------------
  // Cells and indexed values
  // ---------------------------------------------------------------------------

  const NANOS_PER_MILLI := 1_000_000

  /**
   Whether a cell stands for the indexed value. An integer may be shown as the timestamp, and a date as the number,
   that has the same epoch milliseconds; a cell of a kind that no term of the field can be compared with stands for
   anything.
  */
  predicate StandsFor(kind: FieldType, cell: Value, v: Value) {
    match (kind, cell, v)
    case (I64Field, Instant(nanos), Number(n)) => nanos as real == n * NANOS_PER_MILLI as real
    case (DateField(_), Number(n), Instant(nanos)) => nanos as real == n * NANOS_PER_MILLI as real
    case (IpField(table), Text(s), Address(a)) => IsAddress(table, a) && s == table.names[a]
    case _ => SameKind(cell, v) ==> cell == v
  }

  /** A literal that yields a term is the same value for SQL as for the index. */
  lemma {:induction false} TermIsLiteral(kind: FieldType, scalar: Scalar, v: Value)
    requires ValueFits(kind, v) && !kind.IpField?
    requires LiteralIsExact(kind, scalar) && ScalarToTerm(kind, scalar).Some?
    ensures !IsNull(scalar)
    ensures LiteralValue(scalar, v) == ScalarToTerm(kind, scalar)
    ensures SameKind(v, ScalarToTerm(kind, scalar).value)
  {
    match (kind, scalar)
    case (I64Field, Timestamp(Millisecond, Some(t), _)) =>
      assert (t * NanosPer(Millisecond)) as real / 1_000_000.0 == t as real;
    case _ =>
  }

  /** A cell that stands for the indexed value compares with every literal as the value does with the literal's term. */
  lemma {:induction false} CellComparesAsValue(kind: FieldType, cell: Value, v: Value, scalar: Scalar, op: Operator)
    requires ValueFits(kind, v) && !kind.IpField? && StandsFor(kind, cell, v)
    requires LiteralIsExact(kind, scalar) && ScalarToTerm(kind, scalar).Some?
    requires LiteralValue(scalar, cell).Some?
    ensures Holds(cell, op, LiteralValue(scalar, cell).value) <==> Holds(v, op, ScalarToTerm(kind, scalar).value)
    ensures Holds(LiteralValue(scalar, cell).value, op, cell) <==> Holds(ScalarToTerm(kind, scalar).value, op, v)
  {
    TermIsLiteral(kind, scalar, v);
    var literal, term := LiteralValue(scalar, cell).value, ScalarToTerm(kind, scalar).value;
    if kind.I64Field? && cell.Instant? {
      assert scalar.Timestamp?;
      assert literal.nanos as real == term.n * NANOS_PER_MILLI as real;
    } else if kind.DateField? && cell.Number? {
      assert scalar.Timestamp?;
      assert term.nanos as real == literal.n * NANOS_PER_MILLI as real;
    }
  }

  /**
   A cell that does not stand for the indexed value has some comparison that is TRUE of it and does not hold for the
   value: the comparison with the value itself, on the side on which the cell lies.
  */
  lemma {:induction false} DistortedCellIsLost(
      kind: FieldType, cell: Value, v: Value) returns (op: Operator, scalar: Scalar)
    requires ValueFits(kind, v) && !kind.IpField? && !StandsFor(kind, cell, v)
    ensures IsLost(kind, Some(cell), v, op, scalar)
  {
    scalar := LiteralOf(kind, v);
    var literal := LiteralValue(scalar, cell).value;
    Trichotomy(cell, literal);
    Trichotomy(v, v);
    op := if Less(cell, literal) then Lt else Gt;
  }

  /** A literal whose term is the indexed value. */
  function LiteralOf(kind: FieldType, v: Value): (scalar: Scalar)
    requires ValueFits(kind, v) && !kind.IpField?
    ensures LiteralIsExact(kind, scalar) && ScalarToTerm(kind, scalar) == Some(v)
  {
    match v
    case Number(n) =>
      if kind.F64Field? then Float64(Some(n))
      else if kind.I64Field? then Timestamp(Millisecond, Some(n.Floor), None)
      else Int(U64, Some(n.Floor))
    case Instant(nanos) => Timestamp(Nanosecond, Some(nanos), None)
    case Flag(b) => Boolean(Some(b))
    case Text(s) => Utf8(Some(s))
    case Bytes(bs) => Binary(Some(bs))
  }

  // ---------------------------------------------------------------------------
  // Addresses
  // ---------------------------------------------------------------------------

  predicate TextLess(a: string, b: string) {
    Less(Text(a), Text(b))
  }

  /**
   Whether a comparison with the address that b is read as never loses a row. SQL compares texts and the index
   numbers: equality is safe; inequality if b is how its address is written; an order if every text on that side of
   b is an address on that side.
  */
  ghost predicate AddressSafe(op: Operator, b: string, table: AddressTable)
    requires b in table.parse
  {
    var n := table.parse[b];
    match op
    case NotEq => IsAddress(table, n) ==> table.names[n] == b
    case Lt => forall a :: IsAddress(table, a) && TextLess(table.names[a], b) ==> a < n
    case LtEq => forall a :: IsAddress(table, a) && TextLess(table.names[a], b) ==> a <= n
    case Gt => forall a :: IsAddress(table, a) && TextLess(b, table.names[a]) ==> n < a
    case GtEq => forall a :: IsAddress(table, a) && TextLess(b, table.names[a]) ==> n <= a
    case _ => true
  }

  /** `address op b` for SQL and for the index. */
  predicate TextHolds(a: nat, op: Operator, b: string, table: AddressTable)
    requires IsAddress(table, a)
  {
    Holds(Text(table.names[a]), op, Text(b))
  }

  predicate AddressHolds(a: nat, op: Operator, b: string, table: AddressTable)
    requires b in table.parse
  {
    Holds(Address(a), op, Address(table.parse[b]))
  }

  lemma {:induction false} SafeAddressIsKept(a: nat, op: Operator, b: string, table: AddressTable)
    requires IsAddress(table, a) && b in table.parse && AddressSafe(op, b, table)
    ensures TextHolds(a, op, b, table) ==> AddressHolds(a, op, b, table)
  {
  }

  lemma {:induction false} UnsafeAddressIsLost(op: Operator, b: string, table: AddressTable) returns (a: nat)
    requires b in table.parse && IsComparison(op) && !AddressSafe(op, b, table)
    ensures IsAddress(table, a) && TextHolds(a, op, b, table) && !AddressHolds(a, op, b, table)
  {
    var n := table.parse[b];
    if op.NotEq? {
      a := n;
    } else if op.Lt? {
      a :| IsAddress(table, a) && TextLess(table.names[a], b) && a >= n;
    } else if op.LtEq? {
      a :| IsAddress(table, a) && TextLess(table.names[a], b) && a > n;
    } else if op.Gt? {
      a :| IsAddress(table, a) && TextLess(b, table.names[a]) && n >= a;
    } else {
      a :| IsAddress(table, a) && TextLess(b, table.names[a]) && n > a;
    }
  }

  /** The operator that holds exactly where the other does not. */
  function Negation(op: Operator): Operator {
    match op
    case Eq => NotEq
    case NotEq => Eq
    case Lt => GtEq
    case GtEq => Lt
    case Gt => LtEq
    case LtEq => Gt
    case _ => op
  }

  lemma {:induction false} NegationIsOpposite(a: Value, op: Operator, b: Value)
    requires SameKind(a, b) && IsComparison(op)
    ensures Holds(a, Negation(op), b) <==> !Holds(a, op, b)
  {
    Trichotomy(a, b);
  }

  /** When a comparison and its negation are both safe, SQL and the index agree about it. */
  lemma {:induction false} SafeBothWaysAgrees(a: nat, op: Operator, b: string, table: AddressTable)
    requires IsAddress(table, a) && b in table.parse && IsComparison(op)
    requires AddressSafe(op, b, table) && AddressSafe(Negation(op), b, table)
    ensures TextHolds(a, op, b, table) <==> AddressHolds(a, op, b, table)
  {
    SafeAddressIsKept(a, op, b, table);
    SafeAddressIsKept(a, Negation(op), b, table);
    NegationIsOpposite(Text(table.names[a]), op, Text(b));
    NegationIsOpposite(Address(a), op, Address(table.parse[b]));
  }

  // ---------------------------------------------------------------------------
  // What the translation means
  // ---------------------------------------------------------------------------

  /** Flipping the operator is swapping the operands. */
  lemma {:induction false} FlipSwapsOperands(op: Operator, a: Value, b: Value)
    requires FlipOperator(op).Some?
    ensures Holds(a, FlipOperator(op).value, b) == Holds(b, op, a)
  {
  }

  /** The query built for `key op term` matches exactly the documents whose key satisfies it. */
  lemma {:induction false} ComparisonQueryMeaning(
    field: string, entry: FieldEntry, op: Operator, term: Value, schema: Schema, doc: Doc)
    requires field in schema && schema[field] == entry
    requires ComparisonQuery(field, entry, op, term).Some?
    requires field in doc.values ==> SameKind(doc.values[field], term)
    ensures Matches(ComparisonQuery(field, entry, op, term).value, schema, doc) <==>
      field in doc.values && Holds(doc.values[field], op, term)
  {
    if field in doc.values {
      var key := doc.values[field];
      Trichotomy(key, term);
      if op.NotEq? {
        var below := RangeQuery(field, Unbounded, Excluded(term));
        var above := RangeQuery(field, Excluded(term), Unbounded);
        var q := Union([below, above]);
        assert Matches(below, schema, doc) <==> Less(key, term);
        assert Matches(above, schema, doc) <==> Less(term, key);
        assert Matches(q, schema, doc) <==> Matches(q.queries[0], schema, doc) || Matches(q.queries[1], schema, doc);
      }
    }
  }

  function ColumnOperator(op: Operator, columnOnLeft: bool): Option<Operator> {
    if columnOnLeft then Some(op) else FlipOperator(op)
  }

  /** A comparison of an address column may only be one that is safe for the literal. */
  ghost predicate LeafIsAddressSafe(leaf: Expr, schema: Schema) {
    match leaf
    case BinaryExpr(left, op, right) => (
      match ColumnAndLiteral(left, right)
      case Some((column, Utf8(Some(b)), columnOnLeft)) =>
        column in schema && schema[column].kind.IpField? && b in schema[column].kind.table.parse &&
        ColumnOperator(op, columnOnLeft).Some? ==>
          AddressSafe(ColumnOperator(op, columnOnLeft).value, b, schema[column].kind.table)
      case _ => true
    )
    case _ => true
  }

  ghost predicate AddressesSafe(expr: Expr, schema: Schema) {
    forall leaf :: leaf in Leaves(expr) ==> LeafIsAddressSafe(leaf, schema)
  }

  /** The document's cell of the compared column, if there is one, stands for its value in the index under that name. */
  predicate LeafStandsFor(leaf: Expr, schema: Schema, doc: Doc) {
    match leaf
    case BinaryExpr(left, _, right) => (
      match ColumnAndLiteral(left, right)
      case Some((column, _, _)) =>
        column in schema && column in doc.shown ==>
          column in doc.values && StandsFor(schema[column].kind, doc.shown[column], doc.values[column])
      case None => true
    )
    case _ => true
  }

  ghost predicate CellsStandFor(expr: Expr, schema: Schema, doc: Doc) {
    forall leaf :: leaf in Leaves(expr) ==> LeafStandsFor(leaf, schema, doc)
  }

  /** The document's cell of a compared column can be compared with the literal, and orders are safe both ways. */
  ghost predicate LeafIsComparable(leaf: Expr, schema: Schema, doc: Doc) {
    match leaf
    case BinaryExpr(left, op, right) => (
      match ColumnAndLiteral(left, right)
      case Some((column, scalar, columnOnLeft)) =>
        column in schema && column in doc.values ==>
          && column in doc.shown && LiteralValue(scalar, doc.shown[column]).Some?
          && (match (schema[column].kind, scalar)
              case (IpField(table), Utf8(Some(b))) =>
                b in table.parse && ColumnOperator(op, columnOnLeft).Some? ==>
                  AddressSafe(Negation(ColumnOperator(op, columnOnLeft).value), b, table)
              case _ => true)
      case None => true
    )
    case _ => true
  }

  ghost predicate CellsComparable(expr: Expr, schema: Schema, doc: Doc) {
    forall leaf :: leaf in Leaves(expr) ==> LeafIsComparable(leaf, schema, doc)
  }

  /** What a translated comparison is made of, and what its query matches. */
  lemma {:induction false} LeafQueryMeaning(left: Expr, op: Operator, right: Expr, schema: Schema, doc: Doc)
    requires ValidDoc(schema, doc) && TranslateLeaf(left, op, right, schema).Some?
    ensures ColumnAndLiteral(left, right).Some? && IsComparison(op)
    ensures var (column, scalar, columnOnLeft) := ColumnAndLiteral(left, right).value;
      && column in schema && ColumnOperator(op, columnOnLeft).Some?
      && ScalarToTerm(schema[column].kind, scalar).Some?
      && (Matches(TranslateLeaf(left, op, right, schema).value, schema, doc) <==>
          column in doc.values &&
          Holds(doc.values[column], ColumnOperator(op, columnOnLeft).value,
                ScalarToTerm(schema[column].kind, scalar).value))
  {
    var (column, scalar, columnOnLeft) := ColumnAndLiteral(left, right).value;
    var term := ScalarToTerm(schema[column].kind, scalar).value;
    ComparisonQueryMeaning(column, schema[column], ColumnOperator(op, columnOnLeft).value, term, schema, doc);
  }

  /** A comparison with the literal first is the flipped one with the column first. */
  lemma {:induction false} ColumnFirstComparison(cell: Value, op: Operator, scalar: Scalar, columnOnLeft: bool)
    requires IsComparison(op) && ColumnOperator(op, columnOnLeft).Some?
    ensures CompareCell(Some(cell), op, scalar, columnOnLeft) ==
            CompareCell(Some(cell), ColumnOperator(op, columnOnLeft).value, scalar, true)
  {
    if !columnOnLeft && LiteralValue(scalar, cell).Some? {
      FlipSwapsOperands(op, cell, LiteralValue(scalar, cell).value);
    }
  }

  /** A comparison of a cell that stands for the indexed value: TRUE only where the index holds, or exactly there. */
  lemma {:induction false} CellIsKept(kind: FieldType, cell: Value, v: Value, op: Operator, scalar: Scalar)
    requires ValueFits(kind, v) && StandsFor(kind, cell, v) && IsComparison(op)
    requires LiteralIsExact(kind, scalar) && ScalarToTerm(kind, scalar).Some?
    requires kind.IpField? ==> AddressSafe(op, scalar.text.value, kind.table)
    ensures CompareCell(Some(cell), op, scalar, true) == True ==> Holds(v, op, ScalarToTerm(kind, scalar).value)
    ensures (LiteralValue(scalar, cell).Some? && Holds(v, op, ScalarToTerm(kind, scalar).value) &&
             (kind.IpField? ==> AddressSafe(Negation(op), scalar.text.value, kind.table))) ==>
      CompareCell(Some(cell), op, scalar, true) == True
  {
    if LiteralValue(scalar, cell).Some? {
      if kind.IpField? {
        SafeAddressIsKept(v.a, op, scalar.text.value, kind.table);
        if AddressSafe(Negation(op), scalar.text.value, kind.table) {
          SafeBothWaysAgrees(v.a, op, scalar.text.value, kind.table);
        }
      } else {
        CellComparesAsValue(kind, cell, v, scalar, op);
      }
    }
  }

  /** A comparison that has a query is TRUE of the cell, and the index does not match the value. */
  predicate IsLost(kind: FieldType, cell: Option<Value>, v: Value, op: Operator, scalar: Scalar) {
    && IsComparison(op) && LiteralIsExact(kind, scalar) && ScalarToTerm(kind, scalar).Some?
    && CompareCell(cell, op, scalar, true) == True
    && !Holds(v, op, ScalarToTerm(kind, scalar).value)
  }

  lemma {:induction false} StandingCellIsNotLost(
      kind: FieldType, cell: Option<Value>, v: Value, op: Operator, scalar: Scalar)
    requires ValueFits(kind, v) && !kind.IpField? && (cell.Some? ==> StandsFor(kind, cell.value, v))
    ensures !IsLost(kind, cell, v, op, scalar)
  {
    if cell.Some? && IsComparison(op) && LiteralIsExact(kind, scalar) && ScalarToTerm(kind, scalar).Some? {
      CellIsKept(kind, cell.value, v, op, scalar);
    }
  }

  lemma {:induction false} LeafIsKept(left: Expr, op: Operator, right: Expr, schema: Schema, doc: Doc)
    requires !op.And? && !op.Or?
    requires ValidDoc(schema, doc) && DOC_ID !in schema && SEGMENT_ORD !in schema
    requires TranslateLeaf(left, op, right, schema).Some?
    requires LeafIsExact(BinaryExpr(left, op, right), schema)
    requires LeafIsAddressSafe(BinaryExpr(left, op, right), schema)
    requires LeafStandsFor(BinaryExpr(left, op, right), schema, doc)
    ensures Eval(BinaryExpr(left, op, right), RowOf(doc)) == True ==>
      Matches(TranslateLeaf(left, op, right, schema).value, schema, doc)
    ensures (LeafIsComparable(BinaryExpr(left, op, right), schema, doc) &&
             Matches(TranslateLeaf(left, op, right, schema).value, schema, doc)) ==>
      Eval(BinaryExpr(left, op, right), RowOf(doc)) == True
  {
    LeafQueryMeaning(left, op, right, schema, doc);
    var (column, scalar, columnOnLeft) := ColumnAndLiteral(left, right).value;
    assert Eval(BinaryExpr(left, op, right), RowOf(doc)) ==
      CompareCell(CellOf(RowOf(doc), column), op, scalar, columnOnLeft);
    if column in doc.shown {
      var cell := doc.shown[column];
      ColumnFirstComparison(cell, op, scalar, columnOnLeft);
      CellIsKept(
        schema[column].kind, cell, doc.values[column], ColumnOperator(op, columnOnLeft).value, scalar);
    }
  }

  /**
   Exactness: where cells stand for indexed values and can be compared, a translated filter matches a document if
   and only if the filter is TRUE of its row.
  */
  lemma {:induction false} TranslationIsExact(expr: Expr, schema: Schema, doc: Doc)
    requires ValidDoc(schema, doc) && DOC_ID !in schema && SEGMENT_ORD !in schema
    requires ExactLiterals(expr, schema) && AddressesSafe(expr, schema)
    requires CellsStandFor(expr, schema, doc) && CellsComparable(expr, schema, doc)
    requires Translate(expr, schema).Some?
    ensures Matches(Translate(expr, schema).value, schema, doc) <==> Eval(expr, RowOf(doc)) == True
  {
    if expr.op.And? || expr.op.Or? {
      TranslationIsExact(expr.left, schema, doc);
      TranslationIsExact(expr.right, schema, doc);
      var q := Translate(expr, schema).value;
      assert q.queries[0] == Translate(expr.left, schema).value;
      assert q.queries[1] == Translate(expr.right, schema).value;
    } else {
      assert expr in Leaves(expr);
      LeafIsKept(expr.left, expr.op, expr.right, schema, doc);
    }
  }

  /** Soundness: where cells stand for indexed values, a translated filter matches every document it is TRUE of. */
  lemma {:induction false} TranslationIsSound(expr: Expr, schema: Schema, doc: Doc)
    requires ValidDoc(schema, doc) && DOC_ID !in schema && SEGMENT_ORD !in schema
    requires ExactLiterals(expr, schema) && AddressesSafe(expr, schema) && CellsStandFor(expr, schema, doc)
    requires Translate(expr, schema).Some?
    requires Eval(expr, RowOf(doc)) == True
    ensures Matches(Translate(expr, schema).value, schema, doc)
  {
    if expr.op.And? || expr.op.Or? {
      var q := Translate(expr, schema).value;
      assert q.queries[0] == Translate(expr.left, schema).value;
      assert q.queries[1] == Translate(expr.right, schema).value;
      if Eval(expr.left, RowOf(doc)) == True {
        TranslationIsSound(expr.left, schema, doc);
      }
      if Eval(expr.right, RowOf(doc)) == True {
        TranslationIsSound(expr.right, schema, doc);
      }
    } else {
      assert expr in Leaves(expr);
      LeafIsKept(expr.left, expr.op, expr.right, schema, doc);
    }
  }
}
