/**
 Filter expressions, rows, and SQL's three-valued meaning of a filter on a row.

 The meaning given here is the reference that pushed-down index queries are compared with; it knows
 nothing about how filters are translated.
*/
module Expressions {
  import opened Prelude

  datatype IntKind = I8 | I16 | I32 | I64 | U8 | U16 | U32 | U64

  datatype TimeUnit = Second | Millisecond | Microsecond | Nanosecond

  /** A literal. `None` payloads are typed SQL NULLs; the last case stands for every other literal type. */
  datatype Scalar =
    | Int(kind: IntKind, number: Option<int>)
    | Float32(single: Option<real>)
    | Float64(double: Option<real>)
    | Boolean(flag: Option<bool>)
    | Utf8(text: Option<string>)
    | Binary(bytes: Option<seq<bv8>>)
    | Timestamp(unit: TimeUnit, ticks: Option<int>, tz: Option<string>)
    | OtherScalar(id: nat, isNull: bool)

  datatype Operator =
    | Eq | NotEq | Gt | GtEq | Lt | LtEq
    | And | Or
    | IsDistinctFrom | IsNotDistinctFrom
    | OtherOperator(id: nat)

  datatype Expr =
    | Column(name: string)
    | Literal(scalar: Scalar)
    | BinaryExpr(left: Expr, op: Operator, right: Expr)
    | Not(inner: Expr)
    | Cast(inner: Expr)
    | TryCast(inner: Expr)
    | ScalarFunction(functionName: string, args: seq<Expr>)
    | OtherExpr(id: nat)

  /**
   A non-null cell, or a value of the index. Addresses are only ever in the index: SQL sees them as text. Lists are
   only ever cells, and no literal is compared with them.
  */
  datatype Value =
    | Number(n: real)
    | Instant(nanos: int)
    | Flag(b: bool)
    | Text(s: string)
    | Bytes(bs: seq<bv8>)
    | Address(a: nat)
    | Listed(items: seq<Option<Value>>)

  datatype Truth = True | False | Unknown

  /**
   One row as SQL sees it. A column without a cell is NULL. `hits` are the (field, query) pairs whose
   full-text call is true of the row, and `other` answers every expression that is not interpreted here.
  */
  datatype Row = Row(cells: map<string, Value>, hits: set<(string, string)>, other: map<Expr, Truth>)

  const DOC_ID := "_doc_id"
  const SEGMENT_ORD := "_segment_ord"

  // ---------------------------------------------------------------------------
  // Integer widths
  // ---------------------------------------------------------------------------

  function Lowest(kind: IntKind): int {
    match kind
    case I8 => -0x80
    case I16 => -0x8000
    case I32 => -0x8000_0000
    case I64 => -0x8000_0000_0000_0000
    case _ => 0
  }

  function Highest(kind: IntKind): int {
    match kind
    case I8 => 0x7F
    case I16 => 0x7FFF
    case I32 => 0x7FFF_FFFF
    case I64 => 0x7FFF_FFFF_FFFF_FFFF
    case U8 => 0xFF
    case U16 => 0xFFFF
    case U32 => 0xFFFF_FFFF
    case U64 => 0xFFFF_FFFF_FFFF_FFFF
  }

  function Values(kind: IntKind): int {
    match kind
    case I8 | U8 => 0x100
    case I16 | U16 => 0x1_0000
    case I32 | U32 => 0x1_0000_0000
    case I64 | U64 => 0x1_0000_0000_0000_0000
  }

  /** As many values as the width has; signed ones are half of them below zero, and unsigned ones start there. */
  lemma {:induction false} WidthOf(kind: IntKind)
    ensures Highest(kind) - Lowest(kind) + 1 == Values(kind)
    ensures 2 * Lowest(kind) == if kind.I8? || kind.I16? || kind.I32? || kind.I64? then -Values(kind) else 0
  {
  }

  predicate Fits(v: int, kind: IntKind) {
    Lowest(kind) <= v <= Highest(kind)
  }

  /** What the literal types themselves guarantee: an integer lies in the range of its width. */
  predicate WellTyped(scalar: Scalar) {
    match scalar
    case Int(kind, Some(v)) => Fits(v, kind)
    case Timestamp(_, Some(t), _) => Fits(t, I64)
    case _ => true
  }

  // ---------------------------------------------------------------------------
  // Order of values
  // ---------------------------------------------------------------------------

  predicate LexLess(a: seq<int>, b: seq<int>) {
    if b == [] then false
    else if a == [] then true
    else a[0] < b[0] || (a[0] == b[0] && LexLess(a[1..], b[1..]))
  }

  function CharCodes(s: string): (codes: seq<int>)
    ensures |codes| == |s| && forall i :: 0 <= i < |s| ==> codes[i] == s[i] as int
  {
    seq(|s|, i requires 0 <= i < |s| => s[i] as int)
  }

  function ByteCodes(s: seq<bv8>): (codes: seq<int>)
    ensures |codes| == |s| && forall i :: 0 <= i < |s| ==> codes[i] == s[i] as int
  {
    seq(|s|, i requires 0 <= i < |s| => s[i] as int)
  }

  predicate Less(a: Value, b: Value) {
    match (a, b)
    case (Number(x), Number(y)) => x < y
    case (Instant(x), Instant(y)) => x < y
    case (Flag(x), Flag(y)) => !x && y
    case (Text(x), Text(y)) => LexLess(CharCodes(x), CharCodes(y))
    case (Bytes(x), Bytes(y)) => LexLess(ByteCodes(x), ByteCodes(y))
    case (Address(x), Address(y)) => x < y
    case _ => false
  }

  predicate SameKind(a: Value, b: Value) {
    match (a, b)
    case (Number(_), Number(_)) => true
    case (Instant(_), Instant(_)) => true
    case (Flag(_), Flag(_)) => true
    case (Text(_), Text(_)) => true
    case (Bytes(_), Bytes(_)) => true
    case (Address(_), Address(_)) => true
    case _ => false
  }

  /** Where two sequences first differ: at the end of the shorter one, or where the one has the smaller element. */
  ghost predicate IsFirstDifference(a: seq<int>, b: seq<int>, k: nat) {
    k <= |a| && k < |b| && a[..k] == b[..k] && (k < |a| ==> a[k] < b[k])
  }

  lemma {:induction false} LexLessMeaning(a: seq<int>, b: seq<int>)
    ensures LexLess(a, b) <==> exists k: nat :: IsFirstDifference(a, b, k)
  {
    if b == [] || a == [] || a[0] < b[0] {
      if b != [] {
        assert a[..0] == b[..0] && IsFirstDifference(a, b, 0);
      }
    } else {
      LexLessMeaning(a[1..], b[1..]);
      if LexLess(a, b) {
        var k: nat :| IsFirstDifference(a[1..], b[1..], k);
        assert a[..k + 1] == [a[0]] + a[1..][..k] && b[..k + 1] == [b[0]] + b[1..][..k];
        assert IsFirstDifference(a, b, k + 1);
      }
      if k: nat :| IsFirstDifference(a, b, k) {
        assert a[..k][0] == b[..k][0] && a[..k][1..] == a[1..][..k - 1] && b[..k][1..] == b[1..][..k - 1];
        assert IsFirstDifference(a[1..], b[1..], k - 1);
      }
    }
  }

  /** Numbers, instants and addresses are in numeric order, FALSE is before TRUE, and strings are as in a dictionary. */
  lemma {:induction false} LessMeaning(a: Value, b: Value)
    ensures a.Number? && b.Number? ==> (Less(a, b) <==> a.n < b.n)
    ensures a.Instant? && b.Instant? ==> (Less(a, b) <==> a.nanos < b.nanos)
    ensures a.Address? && b.Address? ==> (Less(a, b) <==> a.a < b.a)
    ensures a.Flag? && b.Flag? ==> (Less(a, b) <==> a == Flag(false) && b == Flag(true))
    ensures a.Text? && b.Text? ==>
      (Less(a, b) <==> exists k: nat :: IsFirstDifference(CharCodes(a.s), CharCodes(b.s), k))
    ensures a.Bytes? && b.Bytes? ==>
      (Less(a, b) <==> exists k: nat :: IsFirstDifference(ByteCodes(a.bs), ByteCodes(b.bs), k))
    ensures Less(a, b) ==> SameKind(a, b)
  {
    if a.Text? && b.Text? {
      LexLessMeaning(CharCodes(a.s), CharCodes(b.s));
    } else if a.Bytes? && b.Bytes? {
      LexLessMeaning(ByteCodes(a.bs), ByteCodes(b.bs));
    }
  }

  lemma {:induction false} LexTrichotomy(a: seq<int>, b: seq<int>)
    ensures a == b ==> !LexLess(a, b) && !LexLess(b, a)
    ensures a != b ==> LexLess(a, b) != LexLess(b, a)
  {
    if a == [] || b == [] {
    } else {
      assert a == [a[0]] + a[1..] && b == [b[0]] + b[1..];
      LexTrichotomy(a[1..], b[1..]);
    }
  }

  /** Values of one kind are totally ordered: exactly one of less, equal and greater holds. */
  lemma {:induction false} Trichotomy(a: Value, b: Value)
    requires SameKind(a, b)
    ensures a == b ==> !Less(a, b) && !Less(b, a)
    ensures a != b ==> Less(a, b) != Less(b, a)
  {
    match (a, b)
    case (Text(x), Text(y)) =>
      LexTrichotomy(CharCodes(x), CharCodes(y));
      if CharCodes(x) == CharCodes(y) {
        assert forall i :: 0 <= i < |x| ==> CharCodes(x)[i] == CharCodes(y)[i];
        assert x == y;
      }
    case (Bytes(x), Bytes(y)) =>
      LexTrichotomy(ByteCodes(x), ByteCodes(y));
      if ByteCodes(x) == ByteCodes(y) {
        assert forall i :: 0 <= i < |x| ==> ByteCodes(x)[i] == ByteCodes(y)[i];
        assert x == y;
      }
    case _ =>
  }

  // ---------------------------------------------------------------------------
  // Three-valued logic
  // ---------------------------------------------------------------------------

  function KleeneAnd(a: Truth, b: Truth): Truth {
    if a == False || b == False then False
    else if a == True && b == True then True
    else Unknown
  }

  function KleeneOr(a: Truth, b: Truth): Truth {
    if a == True || b == True then True
    else if a == False && b == False then False
    else Unknown
  }

  function KleeneNot(a: Truth): Truth {
    match a
    case True => False
    case False => True
    case Unknown => Unknown
  }

  function FromBool(b: bool): Truth {
    if b then True else False
  }

  /** FALSE before UNKNOWN before TRUE. */
  function Rank(t: Truth): int {
    match t
    case False => 0
    case Unknown => 1
    case True => 2
  }

  /** In that order AND is the lesser of two truth values, OR the greater, and NOT turns the order around. */
  lemma {:induction false} KleeneLaws(a: Truth, b: Truth)
    ensures Rank(KleeneAnd(a, b)) == if Rank(a) < Rank(b) then Rank(a) else Rank(b)
    ensures Rank(KleeneOr(a, b)) == if Rank(a) < Rank(b) then Rank(b) else Rank(a)
    ensures Rank(KleeneNot(a)) == 2 - Rank(a)
  {
  }

  // ---------------------------------------------------------------------------
  // Meaning of comparisons
  // ---------------------------------------------------------------------------

  predicate IsComparison(op: Operator) {
    op.Eq? || op.NotEq? || op.Gt? || op.GtEq? || op.Lt? || op.LtEq?
  }

  predicate IsNullSafe(op: Operator) {
    op.IsDistinctFrom? || op.IsNotDistinctFrom?
  }

  predicate IsNull(scalar: Scalar) {
    match scalar
    case Int(_, v) => v.None?
    case Float32(v) => v.None?
    case Float64(v) => v.None?
    case Boolean(v) => v.None?
    case Utf8(v) => v.None?
    case Binary(v) => v.None?
    case Timestamp(_, v, _) => v.None?
    case OtherScalar(_, isNull) => isNull
  }

  function NanosPer(unit: TimeUnit): int {
    match unit
    case Second => 1_000_000_000
    case Millisecond => 1_000_000
    case Microsecond => 1_000
    case Nanosecond => 1
  }

  /**
   The literal as a value that can be compared with `cell`. A number may be compared with a timestamp:
   integer columns hold epoch milliseconds, so the literal is read as (possibly fractional) milliseconds.
  */
  function LiteralValue(scalar: Scalar, cell: Value): Option<Value> {
    match (scalar, cell)
    case (Int(_, Some(v)), Number(_)) => Some(Number(v as real))
    case (Float32(Some(v)), Number(_)) => Some(Number(v))
    case (Float64(Some(v)), Number(_)) => Some(Number(v))
    case (Timestamp(unit, Some(t), _), Number(_)) =>
      Some(Number((t * NanosPer(unit)) as real / 1_000_000.0))
    case (Timestamp(unit, Some(t), _), Instant(_)) => Some(Instant(t * NanosPer(unit)))
    case (Boolean(Some(b)), Flag(_)) => Some(Flag(b))
    case (Utf8(Some(s)), Text(_)) => Some(Text(s))
    case (Binary(Some(bs)), Bytes(_)) => Some(Bytes(bs))
    case _ => None
  }

  predicate Holds(a: Value, op: Operator, b: Value) {
    match op
    case Eq => a == b
    case NotEq => a != b
    case Gt => Less(b, a)
    case GtEq => Less(b, a) || a == b
    case Lt => Less(a, b)
    case LtEq => Less(a, b) || a == b
    case _ => false
  }

  /** `column op literal` (or, with `columnOnLeft` false, `literal op column`) where the column is `cell`. */
  function CompareCell(cell: Option<Value>, op: Operator, scalar: Scalar, columnOnLeft: bool): Truth {
    if IsNullSafe(op) then
      var distinct :=
        if cell.None? || IsNull(scalar) then cell.Some? || !IsNull(scalar)
        else LiteralValue(scalar, cell.value) != Some(cell.value);
      FromBool(distinct == op.IsDistinctFrom?)
    else if cell.None? || IsNull(scalar) then Unknown
    else
      match LiteralValue(scalar, cell.value)
      case None => Unknown
      case Some(v) =>
        FromBool(if columnOnLeft then Holds(cell.value, op, v) else Holds(v, op, cell.value))
  }

  function CellOf(row: Row, column: string): Option<Value> {
    if column in row.cells then Some(row.cells[column]) else None
  }

  /** Splits `column op literal` and `literal op column`; the flag says that the column is on the left. */
  function ColumnAndLiteral(left: Expr, right: Expr): Option<(string, Scalar, bool)> {
    match (left, right)
    case (Column(name), Literal(scalar)) => Some((name, scalar, true))
    case (Literal(scalar), Column(name)) => Some((name, scalar, false))
    case _ => None
  }

  // ---------------------------------------------------------------------------
  // The full_text marker
  // ---------------------------------------------------------------------------

  /** The field and query of `full_text(column, query)`; the column may be a name or under a cast. */
  function ExtractFullTextCall(expr: Expr): Option<(string, string)> {
    match expr
    case ScalarFunction(name, args) =>
      if name != "full_text" || |args| != 2 then None
      else
        var field :- match args[0] {
          case Column(c) => Some(c)
          case Literal(Utf8(Some(s))) => Some(s)
          case Cast(Column(c)) => Some(c)
          case TryCast(Column(c)) => Some(c)
          case _ => None
        };
        match args[1] {
          case Literal(Utf8(Some(q))) => Some((field, q))
          case _ => None
        }
    case _ => None
  }

  // ---------------------------------------------------------------------------
  // Meaning of filters
  // ---------------------------------------------------------------------------

  function Uninterpreted(expr: Expr, row: Row): Truth {
    if expr in row.other then row.other[expr] else Unknown
  }

  /** The three-valued meaning of an expression on a row. */
  function Eval(expr: Expr, row: Row): Truth {
    match expr
    case BinaryExpr(left, op, right) =>
      if op.And? then KleeneAnd(Eval(left, row), Eval(right, row))
      else if op.Or? then KleeneOr(Eval(left, row), Eval(right, row))
      else (
        match ColumnAndLiteral(left, right)
        case None => Uninterpreted(expr, row)
        case Some((column, scalar, columnOnLeft)) =>
          var cell := CellOf(row, column);
          if IsComparison(op) || IsNullSafe(op) then CompareCell(cell, op, scalar, columnOnLeft)
          else if cell.None? || IsNull(scalar) then Unknown
          else Uninterpreted(expr, row)
      )
    case Not(inner) => KleeneNot(Eval(inner, row))
    case ScalarFunction(_, _) => (
      match ExtractFullTextCall(expr)
      case Some(call) => FromBool(call in row.hits)
      case None => Uninterpreted(expr, row)
    )
    case _ => Uninterpreted(expr, row)
  }

  /** The argument names the field: as a column, as a text, or as a column under a cast. */
  predicate NamesField(arg: Expr, field: string) {
    arg == Column(field) || arg == Literal(Utf8(Some(field))) || arg == Cast(Column(field)) ||
    arg == TryCast(Column(field))
  }

  /** The expression is the call `full_text(field, query)`. */
  predicate IsCall(expr: Expr, field: string, query: string) {
    && expr.ScalarFunction? && expr.functionName == "full_text" && |expr.args| == 2
    && NamesField(expr.args[0], field) && expr.args[1] == Literal(Utf8(Some(query)))
  }

  /** The extractor finds a field and a query exactly in the calls of that query on that field. */
  lemma {:induction false} ExtractorFindsCalls(expr: Expr, field: string, query: string)
    ensures ExtractFullTextCall(expr) == Some((field, query)) <==> IsCall(expr, field, query)
  {
  }

  /** A call is TRUE of the rows whose field has a hit for the query and FALSE of the others. */
  lemma {:induction false} CallMeaning(expr: Expr, field: string, query: string, row: Row)
    requires IsCall(expr, field, query)
    ensures Eval(expr, row) == FromBool((field, query) in row.hits)
    ensures Eval(Not(expr), row) == FromBool((field, query) !in row.hits)
  {
  }

  /** A WHERE clause keeps the rows on which every conjunct is TRUE. */
  ghost predicate Satisfies(row: Row, filters: seq<Expr>) {
    forall i :: 0 <= i < |filters| ==> Eval(filters[i], row) == True
  }
}
