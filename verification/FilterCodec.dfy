/**
 How fast-field filters travel to a worker: every `column op literal` becomes a record of four strings, and the
 worker rebuilds expressions and queries from the records.
*/
module FilterCodec {
  import opened Prelude
  import opened Expressions
  import opened IndexQueries
  import opened FilterTranslation

  datatype Record = Record(field: string, op: string, value: string, valueType: string)

  /** Library text formats: shortest float printing and base64, each with its parser. */
  datatype Texts = Texts(
    printSingle: real -> string, parseSingle: string -> Option<real>,
    printDouble: real -> string, parseDouble: string -> Option<real>,
    encodeBytes: seq<bv8> -> string, decodeBytes: string -> Option<seq<bv8>>)

  /** The text formats give back the literal that was printed. */
  predicate RoundTrips(scalar: Scalar, texts: Texts) {
    match scalar
    case Float32(Some(v)) => texts.parseSingle(texts.printSingle(v)) == Some(v)
    case Float64(Some(v)) => texts.parseDouble(texts.printDouble(v)) == Some(v)
    case Binary(Some(bs)) => texts.decodeBytes(texts.encodeBytes(bs)) == Some(bs)
    case _ => true
  }

  // ---------------------------------------------------------------------------
  // Decimal numbers
  // ---------------------------------------------------------------------------

  function Digit(d: nat): char
    requires d < 10
  {
    '0' + d as char
  }

  function DigitValue(c: char): Option<nat> {
    if '0' <= c <= '9' then Some(c as int - '0' as int) else None
  }

  function PrintNat(n: nat): (s: string)
    ensures s != [] && forall i :: 0 <= i < |s| ==> DigitValue(s[i]).Some?
  {
    if n < 10 then [Digit(n)] else PrintNat(n / 10) + [Digit(n % 10)]
  }

  function ParseDigits(s: string): Option<nat> {
    if s == [] then Some(0)
    else
      var front :- ParseDigits(s[..|s| - 1]);
      var last :- DigitValue(s[|s| - 1]);
      Some(10 * front + last)
  }

  function PrintInt(n: int): string {
    if n < 0 then "-" + PrintNat(-n) else PrintNat(n)
  }

  /** An optional sign, a minus only for signed types; at least one digit; in the range of the type. */
  function ParseInt(s: string, kind: IntKind): Option<int> {
    if s == [] then None
    else
      var negative := s[0] == '-' && Lowest(kind) < 0;
      var digits := if s[0] == '+' || negative then s[1..] else s;
      if digits == [] then None
      else
        var n :- ParseDigits(digits);
        var v := if negative then 0 - n as int else n as int;
        if Fits(v, kind) then Some(v) else None
  }

  lemma {:induction false} DigitsRoundTrip(n: nat)
    ensures ParseDigits(PrintNat(n)) == Some(n)
  {
    if n < 10 {
      assert PrintNat(n)[..0] == [];
      assert DigitValue(Digit(n)) == Some(n);
    } else {
      DigitsRoundTrip(n / 10);
      var s := PrintNat(n);
      assert s[..|s| - 1] == PrintNat(n / 10);
      assert DigitValue(Digit(n % 10)) == Some(n % 10);
    }
  }

  lemma {:induction false} IntRoundTrip(n: int, kind: IntKind)
    requires Fits(n, kind)
    ensures ParseInt(PrintInt(n), kind) == Some(n)
  {
    var s := PrintInt(n);
    if n < 0 {
      DigitsRoundTrip(-n);
      assert s[1..] == PrintNat(-n);
    } else {
      DigitsRoundTrip(n);
      assert DigitValue(s[0]).Some?;
    }
  }

  // ---------------------------------------------------------------------------
  // Scalars
  // ---------------------------------------------------------------------------

  function IntTag(kind: IntKind): string {
    match kind
    case I8 => "i8"
    case I16 => "i16"
    case I32 => "i32"
    case I64 => "i64"
    case U8 => "u8"
    case U16 => "u16"
    case U32 => "u32"
    case U64 => "u64"
  }

  function UnitTag(unit: TimeUnit): string {
    match unit
    case Second => "ts_s"
    case Millisecond => "ts_ms"
    case Microsecond => "ts_us"
    case Nanosecond => "ts_ns"
  }

  function TimestampTag(unit: TimeUnit, tz: Option<string>): string {
    if tz.Some? then UnitTag(unit) + ":" + tz.value else UnitTag(unit)
  }

  function ScalarToPair(scalar: Scalar, texts: Texts): Option<(string, string)> {
    match scalar
    case Int(kind, Some(v)) => Some((PrintInt(v), IntTag(kind)))
    case Float32(Some(v)) => Some((texts.printSingle(v), "f32"))
    case Float64(Some(v)) => Some((texts.printDouble(v), "f64"))
    case Boolean(Some(b)) => Some((if b then "true" else "false", "bool"))
    case Utf8(Some(s)) => Some((s, "utf8"))
    case Binary(Some(bs)) => Some((texts.encodeBytes(bs), "binary"))
    case Timestamp(unit, Some(t), tz) => Some((PrintInt(t), TimestampTag(unit, tz)))
    case _ => None
  }

  /** The timezone of a tag with that unit; None if the tag has another unit. */
  function ParseTimestampTag(tag: string, unit: TimeUnit): Option<Option<string>> {
    var prefix := UnitTag(unit);
    if tag == prefix then Some(None)
    else if prefix + ":" <= tag then Some(Some(tag[|prefix| + 1..]))
    else None
  }

  function ParseScalar<T>(v: Option<T>, scalar: T -> Scalar): Result<Scalar, string> {
    if v.Some? then Ok(scalar(v.value)) else Err("parse")
  }

  function ParseIntScalar(value: string, kind: IntKind): Result<Scalar, string> {
    ParseScalar(ParseInt(value, kind), v => Int(kind, Some(v)))
  }

  function ParseTicks(value: string, unit: TimeUnit, tz: Option<string>): Result<Scalar, string> {
    ParseScalar(ParseInt(value, I64), t => Timestamp(unit, Some(t), tz))
  }

  function PairToScalar(value: string, tag: string, texts: Texts): Result<Scalar, string> {
    if tag == "i8" then ParseIntScalar(value, I8)
    else if tag == "i16" then ParseIntScalar(value, I16)
    else if tag == "i32" then ParseIntScalar(value, I32)
    else if tag == "i64" then ParseIntScalar(value, I64)
    else if tag == "u8" then ParseIntScalar(value, U8)
    else if tag == "u16" then ParseIntScalar(value, U16)
    else if tag == "u32" then ParseIntScalar(value, U32)
    else if tag == "u64" then ParseIntScalar(value, U64)
    else if tag == "f32" then ParseScalar(texts.parseSingle(value), v => Float32(Some(v)))
    else if tag == "f64" then ParseScalar(texts.parseDouble(value), v => Float64(Some(v)))
    else if tag == "bool" then Ok(Boolean(Some(value == "true")))
    else if tag == "utf8" then Ok(Utf8(Some(value)))
    else if tag == "binary" then ParseScalar(texts.decodeBytes(value), bs => Binary(Some(bs)))
    else if ParseTimestampTag(tag, Second).Some? then
      ParseTicks(value, Second, ParseTimestampTag(tag, Second).value)
    else if ParseTimestampTag(tag, Millisecond).Some? then
      ParseTicks(value, Millisecond, ParseTimestampTag(tag, Millisecond).value)
    else if ParseTimestampTag(tag, Microsecond).Some? then
      ParseTicks(value, Microsecond, ParseTimestampTag(tag, Microsecond).value)
    else if ParseTimestampTag(tag, Nanosecond).Some? then
      ParseTicks(value, Nanosecond, ParseTimestampTag(tag, Nanosecond).value)
    else Err("unknown scalar type tag")
  }

  /** A tag says its unit and timezone, whatever characters the timezone has, and nothing else. */
  lemma {:induction false} TagIsUnambiguous(unit: TimeUnit, tz: Option<string>, other: TimeUnit)
    ensures ParseTimestampTag(TimestampTag(unit, tz), other) == if unit == other then Some(tz) else None
  {
    var tag := TimestampTag(unit, tz);
    if tz.Some? {
      assert tag[|UnitTag(unit)|] == ':';
      assert UnitTag(unit) + ":" <= tag;
      assert tag[|UnitTag(unit)| + 1..] == tz.value;
    }
    assert tag[3] == UnitTag(unit)[3];
    assert unit != other ==> (UnitTag(other) + ":")[3] != tag[3];
  }

  /** The tag of a timestamp as it is on the wire: its unit, and its timezone after a colon. */
  lemma {:induction false} TimestampOnTheWire(unit: TimeUnit, ticks: int, tz: Option<string>, texts: Texts)
    ensures ScalarToPair(Timestamp(unit, Some(ticks), tz), texts).Some?
    ensures ScalarToPair(Timestamp(unit, Some(ticks), tz), texts).value.1 ==
            (if unit.Second? then "ts_s" else if unit.Millisecond? then "ts_ms" else if unit.Microsecond? then "ts_us"
             else "ts_ns") + (if tz.Some? then ":" + tz.value else "")
  {
    if tz.Some? {
      assert UnitTag(unit) + ":" + tz.value == UnitTag(unit) + (":" + tz.value);
    } else {
      assert UnitTag(unit) + "" == UnitTag(unit);
    }
  }

  /** A tag other than a timestamp tag. */
  predicate IsPlainTag(tag: string) {
    tag in ["i8", "i16", "i32", "i64", "u8", "u16", "u32", "u64", "f32", "f64", "bool", "utf8", "binary"]
  }

  lemma {:induction false} TimestampTagIsNotPlain(unit: TimeUnit, tz: Option<string>)
    ensures !IsPlainTag(TimestampTag(unit, tz))
  {
    assert UnitTag(unit)[0] == 't';
    assert TimestampTag(unit, tz)[0] == 't';
  }

  lemma {:induction false} IntScalarRoundTrip(kind: IntKind, v: int, texts: Texts)
    requires Fits(v, kind)
    ensures PairToScalar(PrintInt(v), IntTag(kind), texts) == Ok(Int(kind, Some(v)))
  {
    IntRoundTrip(v, kind);
  }

  lemma {:induction false} TimestampRoundTrip(unit: TimeUnit, ticks: int, tz: Option<string>, texts: Texts)
    requires Fits(ticks, I64)
    ensures PairToScalar(PrintInt(ticks), TimestampTag(unit, tz), texts) == Ok(Timestamp(unit, Some(ticks), tz))
  {
    IntRoundTrip(ticks, I64);
    TimestampTagIsNotPlain(unit, tz);
    TagIsUnambiguous(unit, tz, Second);
    TagIsUnambiguous(unit, tz, Millisecond);
    TagIsUnambiguous(unit, tz, Microsecond);
    TagIsUnambiguous(unit, tz, Nanosecond);
  }

  /** A literal survives the way to a worker. */
  lemma {:induction false} ScalarRoundTrip(scalar: Scalar, texts: Texts)
    requires WellTyped(scalar) && RoundTrips(scalar, texts)
    requires ScalarToPair(scalar, texts).Some?
    ensures var (value, tag) := ScalarToPair(scalar, texts).value;
      PairToScalar(value, tag, texts) == Ok(scalar)
  {
    match scalar
    case Int(kind, Some(v)) => IntScalarRoundTrip(kind, v, texts);
    case Timestamp(unit, Some(t), tz) => TimestampRoundTrip(unit, t, tz, texts);
    case _ =>
  }

  // ---------------------------------------------------------------------------
  // Filters
  // ---------------------------------------------------------------------------

  function OperatorTag(op: Operator): Option<string> {
    match op
    case Eq => Some("eq")
    case NotEq => Some("neq")
    case Gt => Some("gt")
    case GtEq => Some("gte")
    case Lt => Some("lt")
    case LtEq => Some("lte")
    case _ => None
  }

  function TagOperator(tag: string): Result<Operator, string> {
    if tag == "eq" then Ok(Eq)
    else if tag == "neq" then Ok(NotEq)
    else if tag == "gt" then Ok(Gt)
    else if tag == "gte" then Ok(GtEq)
    else if tag == "lt" then Ok(Lt)
    else if tag == "lte" then Ok(LtEq)
    else Err("unknown fast field filter op")
  }

  function EncodeFilter(expr: Expr, texts: Texts): Option<Record> {
    match expr
    case BinaryExpr(left, op, right) =>
      var (column, scalar, columnOnLeft) :- ColumnAndLiteral(left, right);
      var columnOp :- if columnOnLeft then Some(op) else FlipOperator(op);
      var opTag :- OperatorTag(columnOp);
      var (value, valueType) :- ScalarToPair(scalar, texts);
      Some(Record(column, opTag, value, valueType))
    case _ => None
  }

  function DecodeFilter(record: Record, texts: Texts): Result<Expr, string> {
    var scalar :- PairToScalar(record.value, record.valueType, texts);
    var op :- TagOperator(record.op);
    Ok(BinaryExpr(Column(record.field), op, Literal(scalar)))
  }

  /** Filters without a record are left out. */
  function SerializeFastFieldFilters(exprs: seq<Expr>, texts: Texts): seq<Record> {
    if exprs == [] then []
    else
      var record := EncodeFilter(exprs[0], texts);
      (if record.Some? then [record.value] else []) + SerializeFastFieldFilters(exprs[1..], texts)
  }

  function DeserializeFastFieldFilterExprs(records: seq<Record>, texts: Texts): Result<seq<Expr>, string> {
    if records == [] then Ok([])
    else
      var first :- DecodeFilter(records[0], texts);
      var rest :- DeserializeFastFieldFilterExprs(records[1..], texts);
      Ok([first] + rest)
  }

  /** The filters as index queries; an error if one has none. */
  function DeserializeFastFieldFilters(records: seq<Record>, schema: Schema, texts: Texts)
    : Result<seq<IndexQueries.Query>, string>
  {
    if records == [] then Ok([])
    else
      var expr :- DecodeFilter(records[0], texts);
      var query := Translate(expr, schema);
      if query.None? then Err("failed to reconstruct fast field filter")
      else
        var rest :- DeserializeFastFieldFilters(records[1..], schema, texts);
        Ok([query.value] + rest)
  }

  // ---------------------------------------------------------------------------
  // What arrives
  // ---------------------------------------------------------------------------

  /** Literal types that have a tag. */
  predicate HasTag(scalar: Scalar) {
    !IsNull(scalar) && !scalar.OtherScalar?
  }

  /** A single comparison of a column with a non-null literal of a known type, in either order. */
  predicate Encodable(expr: Expr) {
    match expr
    case BinaryExpr(left, op, right) =>
      IsComparison(op) && ColumnAndLiteral(left, right).Some? && HasTag(ColumnAndLiteral(left, right).value.1)
    case _ => false
  }

  /** The same comparison with the column on the left. */
  function Normalize(expr: Expr): Expr
    requires Encodable(expr)
  {
    var (column, scalar, columnOnLeft) := ColumnAndLiteral(expr.left, expr.right).value;
    BinaryExpr(Column(column), if columnOnLeft then expr.op else FlipOperator(expr.op).value, Literal(scalar))
  }

  /** The filters that reach a worker. */
  function Survivors(exprs: seq<Expr>): seq<Expr> {
    if exprs == [] then []
    else (if Encodable(exprs[0]) then [Normalize(exprs[0])] else []) + Survivors(exprs[1..])
  }

  predicate LiteralRoundTrips(expr: Expr, texts: Texts)
    requires Encodable(expr)
  {
    var scalar := ColumnAndLiteral(expr.left, expr.right).value.1;
    WellTyped(scalar) && RoundTrips(scalar, texts)
  }

  /** The literals of the comparisons are values of their types, and their texts can be read back. */
  ghost predicate LiteralsRoundTrip(exprs: seq<Expr>, texts: Texts) {
    forall expr :: expr in exprs && Encodable(expr) ==> LiteralRoundTrips(expr, texts)
  }

  /** A filter has a record if and only if it is one comparison. */
  lemma {:induction false} EncodableHasRecord(expr: Expr, texts: Texts)
    ensures EncodeFilter(expr, texts).Some? <==> Encodable(expr)
  {
  }

  lemma {:induction false} OperatorRoundTrip(op: Operator)
    requires OperatorTag(op).Some?
    ensures TagOperator(OperatorTag(op).value) == Ok(op)
  {
  }

  /** The record of a filter decodes to its column-left form. */
  lemma {:induction false} FilterRoundTrip(expr: Expr, texts: Texts)
    requires Encodable(expr) && LiteralRoundTrips(expr, texts)
    ensures EncodeFilter(expr, texts).Some?
    ensures DecodeFilter(EncodeFilter(expr, texts).value, texts) == Ok(Normalize(expr))
  {
    var (column, scalar, columnOnLeft) := ColumnAndLiteral(expr.left, expr.right).value;
    var columnOp := if columnOnLeft then expr.op else FlipOperator(expr.op).value;
    ScalarRoundTrip(scalar, texts);
    OperatorRoundTrip(columnOp);
    EncodableHasRecord(expr, texts);
    var (value, valueType) := ScalarToPair(scalar, texts).value;
    assert EncodeFilter(expr, texts) == Some(Record(column, OperatorTag(columnOp).value, value, valueType));
  }

  /** decode(encode(filters)) is the list of comparisons among the filters, columns left. */
  lemma {:induction false} FiltersRoundTrip(exprs: seq<Expr>, texts: Texts)
    requires LiteralsRoundTrip(exprs, texts)
    ensures DeserializeFastFieldFilterExprs(SerializeFastFieldFilters(exprs, texts), texts) == Ok(Survivors(exprs))
  {
    if exprs == [] {
    } else {
      assert exprs[0] in exprs;
      assert forall e :: e in exprs[1..] ==> e in exprs;
      EncodableHasRecord(exprs[0], texts);
      FiltersRoundTrip(exprs[1..], texts);
      var rest := SerializeFastFieldFilters(exprs[1..], texts);
      if Encodable(exprs[0]) {
        FilterRoundTrip(exprs[0], texts);
        assert ([EncodeFilter(exprs[0], texts).value] + rest)[1..] == rest;
      } else {
        assert SerializeFastFieldFilters(exprs, texts) == rest;
        assert Survivors(exprs) == Survivors(exprs[1..]);
      }
    }
  }

  /** Sending on what arrived sends the same records. */
  lemma {:induction false} ReencodingIsStable(exprs: seq<Expr>, texts: Texts)
    ensures SerializeFastFieldFilters(Survivors(exprs), texts) == SerializeFastFieldFilters(exprs, texts)
  {
    if exprs == [] {
    } else {
      ReencodingIsStable(exprs[1..], texts);
      EncodableHasRecord(exprs[0], texts);
      var rest := Survivors(exprs[1..]);
      if Encodable(exprs[0]) {
        var first := Normalize(exprs[0]);
        assert EncodeFilter(first, texts) == EncodeFilter(exprs[0], texts);
        assert ([first] + rest)[1..] == rest;
      } else {
        assert [] + rest == rest;
      }
    }
  }

  /** Turning a comparison around changes neither what it means nor how the index answers it. */
  lemma {:induction false} NormalizeKeepsMeaning(expr: Expr, row: Row, schema: Schema)
    requires Encodable(expr)
    ensures Eval(Normalize(expr), row) == Eval(expr, row)
    ensures Translate(Normalize(expr), schema) == Translate(expr, schema)
    ensures Analyze(Normalize(expr), schema) == Analyze(expr, schema)
  {
    var (column, scalar, columnOnLeft) := ColumnAndLiteral(expr.left, expr.right).value;
    var cell := CellOf(row, column);
    if !columnOnLeft && cell.Some? && LiteralValue(scalar, cell.value).Some? {
      FlipSwapsOperands(expr.op, cell.value, LiteralValue(scalar, cell.value).value);
    }
  }

  /** What arrives means the conjunction of the comparisons: filters are dropped, never altered. */
  lemma {:induction false} SurvivorsMeaning(exprs: seq<Expr>, row: Row)
    ensures Satisfies(row, Survivors(exprs)) <==>
            forall i :: 0 <= i < |exprs| && Encodable(exprs[i]) ==> Eval(exprs[i], row) == True
  {
    if exprs == [] {
    } else {
      SurvivorsMeaning(exprs[1..], row);
      assert forall i :: 1 <= i < |exprs| ==> exprs[i] == exprs[1..][i - 1];
      assert forall i :: 0 <= i < |exprs[1..]| ==> exprs[1..][i] == exprs[i + 1];
      var rest := Survivors(exprs[1..]);
      if Encodable(exprs[0]) {
        NormalizeKeepsMeaning(exprs[0], row, map[]);
        var all := [Normalize(exprs[0])] + rest;
        assert all[0] == Normalize(exprs[0]) && forall i :: 0 <= i < |rest| ==> all[i + 1] == rest[i];
        assert forall i :: 1 <= i < |all| ==> all[i] == rest[i - 1];
      } else {
        assert [] + rest == rest;
      }
    }
  }

  ghost predicate AllTranslate(exprs: seq<Expr>, schema: Schema) {
    forall i :: 0 <= i < |exprs| ==> Translate(exprs[i], schema).Some?
  }

  /** The queries rebuilt from records are the translations of the expressions rebuilt from them. */
  lemma {:induction false} QueriesAreTranslations(records: seq<Record>, schema: Schema, texts: Texts)
    requires DeserializeFastFieldFilterExprs(records, texts).Ok?
    ensures DeserializeFastFieldFilters(records, schema, texts).Ok? <==>
            AllTranslate(DeserializeFastFieldFilterExprs(records, texts).value, schema)
    ensures DeserializeFastFieldFilters(records, schema, texts).Ok? ==>
      AreTranslations(
        DeserializeFastFieldFilters(records, schema, texts).value,
        DeserializeFastFieldFilterExprs(records, texts).value, schema)
  {
    if records == [] {
    } else {
      QueriesAreTranslations(records[1..], schema, texts);
      var first := DecodeFilter(records[0], texts).value;
      var rest := DeserializeFastFieldFilterExprs(records[1..], texts).value;
      assert DeserializeFastFieldFilterExprs(records, texts).value == [first] + rest;
      AllTranslateCons(first, rest, schema);
    }
  }

  lemma {:induction false} AllTranslateCons(first: Expr, rest: seq<Expr>, schema: Schema)
    ensures AllTranslate([first] + rest, schema) <==> Translate(first, schema).Some? && AllTranslate(rest, schema)
  {
    assert ([first] + rest)[0] == first;
    assert forall i :: 0 <= i < |rest| ==> ([first] + rest)[i + 1] == rest[i];
  }

  ghost predicate AreTranslations(queries: seq<IndexQueries.Query>, exprs: seq<Expr>, schema: Schema) {
    |queries| == |exprs| && forall i :: 0 <= i < |exprs| ==> Translate(exprs[i], schema) == Some(queries[i])
  }

  /**
   A worker that rebuilds the queries of one split succeeds exactly when every comparison among the filters has a
   query there, and its queries are those the planner would build.
  */
  lemma {:induction false} QueriesRoundTrip(exprs: seq<Expr>, schema: Schema, texts: Texts)
    requires LiteralsRoundTrip(exprs, texts)
    ensures DeserializeFastFieldFilters(SerializeFastFieldFilters(exprs, texts), schema, texts).Ok? <==>
            AllTranslate(Survivors(exprs), schema)
    ensures AllTranslate(Survivors(exprs), schema) ==>
      AreTranslations(
        DeserializeFastFieldFilters(SerializeFastFieldFilters(exprs, texts), schema, texts).value,
        Survivors(exprs), schema)
  {
    FiltersRoundTrip(exprs, texts);
    QueriesAreTranslations(SerializeFastFieldFilters(exprs, texts), schema, texts);
  }

  lemma {:induction false} SurvivorsAreNormalized(exprs: seq<Expr>)
    ensures forall s :: s in Survivors(exprs) ==> exists e :: e in exprs && Encodable(e) && s == Normalize(e)
  {
    if exprs == [] {
    } else {
      SurvivorsAreNormalized(exprs[1..]);
      forall s | s in Survivors(exprs)
        ensures exists e :: e in exprs && Encodable(e) && s == Normalize(e)
      {
        if s in Survivors(exprs[1..]) {
          var e :| e in exprs[1..] && Encodable(e) && s == Normalize(e);
          assert e in exprs;
        } else {
          assert exprs[0] in exprs && s == Normalize(exprs[0]);
        }
      }
    }
  }
}
