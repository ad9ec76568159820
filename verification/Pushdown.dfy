/**
 What a scan does with the filters of a query, and the main result: scanning with pushed-down queries and
 re-applying the filters the scan did not answer exactly returns the rows of the unpushed scan.
*/
module Pushdown {
  import opened Prelude
  import opened Expressions
  import opened IndexQueries
  import opened FilterTranslation
  import opened FullText

  // ---------------------------------------------------------------------------
  // Missing columns
  // ---------------------------------------------------------------------------

  predicate IsInternal(column: string) {
    column == DOC_ID || column == SEGMENT_ORD
  }

  /** The operator with the column on the left. */
  function ColumnFirst(op: Operator, columnOnLeft: bool): Operator {
    if columnOnLeft || FlipOperator(op).None? then op else FlipOperator(op).value
  }

  /** The internal columns hold 32-bit unsigned numbers; whether one of them satisfies `n op v`. */
  predicate SomeNumberSatisfies(op: Operator, v: real) {
    var top := Highest(U32) as real;
    match op
    case Eq => v == v.Floor as real && 0.0 <= v <= top
    case IsNotDistinctFrom => v == v.Floor as real && 0.0 <= v <= top
    case NotEq => true
    case IsDistinctFrom => true
    case Gt => v < top
    case GtEq => v <= top
    case Lt => 0.0 < v
    case LtEq => 0.0 <= v
    case _ => false
  }

  predicate SomeIdSatisfies(op: Operator, scalar: Scalar, columnOnLeft: bool) {
    match LiteralValue(scalar, Number(0.0))
    case None => op.IsDistinctFrom?
    case Some(literal) => SomeNumberSatisfies(ColumnFirst(op, columnOnLeft), literal.n)
  }

  /** Whether no row can make a comparison of a column that the index schema lacks TRUE. */
  predicate NeverTrueWhenMissing(column: string, op: Operator, scalar: Scalar, columnOnLeft: bool) {
    if IsInternal(column) then !SomeIdSatisfies(op, scalar, columnOnLeft)
    else IsNullSafe(op) ==> IsNull(scalar) == op.IsDistinctFrom?
  }

  function IdDoc(id: nat): Doc {
    Doc(id, id, map[], map[], {}, map[])
  }

  /** `n op v` for an id n and a number v. */
  predicate NumberHolds(n: real, op: Operator, v: real) {
    match op
    case Eq => n == v
    case IsNotDistinctFrom => n == v
    case NotEq => n != v
    case IsDistinctFrom => n != v
    case Gt => n > v
    case GtEq => n >= v
    case Lt => n < v
    case LtEq => n <= v
    case _ => false
  }

  lemma {:induction false} CompareNumber(op: Operator, scalar: Scalar, columnOnLeft: bool, id: nat)
    requires IsComparison(op) || IsNullSafe(op)
    ensures
      CompareCell(Some(Number(id as real)), op, scalar, columnOnLeft) == True <==>
      match LiteralValue(scalar, Number(0.0))
      case None => op.IsDistinctFrom?
      case Some(literal) => NumberHolds(id as real, ColumnFirst(op, columnOnLeft), literal.n)
  {
    assert LiteralValue(scalar, Number(id as real)) == LiteralValue(scalar, Number(0.0));
  }

  lemma {:induction false} NumberWitness(op: Operator, v: real) returns (id: nat)
    requires IsComparison(op) || IsNullSafe(op)
    ensures Fits(id, U32)
    ensures SomeNumberSatisfies(op, v) ==> NumberHolds(id as real, op, v)
  {
    if op.Eq? || op.IsNotDistinctFrom? {
      id := if 0.0 <= v <= Highest(U32) as real then v.Floor else 0;
    } else if op.Gt? || op.GtEq? {
      id := Highest(U32);
    } else if op.Lt? || op.LtEq? {
      id := 0;
    } else {
      id := if v == 0.0 then 1 else 0;
    }
  }

  lemma {:induction false} NumberCounterexample(op: Operator, v: real, id: nat)
    requires Fits(id, U32) && NumberHolds(id as real, op, v)
    ensures SomeNumberSatisfies(op, v)
  {
    assert (id as real).Floor == id;
  }

  lemma {:induction false} SomeIdWitness(op: Operator, scalar: Scalar, columnOnLeft: bool) returns (id: nat)
    requires IsComparison(op) || IsNullSafe(op)
    ensures Fits(id, U32)
    ensures SomeIdSatisfies(op, scalar, columnOnLeft) ==>
      CompareCell(Some(Number(id as real)), op, scalar, columnOnLeft) == True
  {
    match LiteralValue(scalar, Number(0.0)) {
      case None => id := 0;
      case Some(literal) => id := NumberWitness(ColumnFirst(op, columnOnLeft), literal.n);
    }
    CompareNumber(op, scalar, columnOnLeft, id);
  }

  lemma {:induction false} NoIdSatisfies(op: Operator, scalar: Scalar, columnOnLeft: bool, id: nat)
    requires IsComparison(op) || IsNullSafe(op)
    requires Fits(id, U32) && !SomeIdSatisfies(op, scalar, columnOnLeft)
    ensures CompareCell(Some(Number(id as real)), op, scalar, columnOnLeft) != True
  {
    CompareNumber(op, scalar, columnOnLeft, id);
    match LiteralValue(scalar, Number(0.0))
    case None =>
    case Some(literal) =>
      if NumberHolds(id as real, ColumnFirst(op, columnOnLeft), literal.n) {
        NumberCounterexample(ColumnFirst(op, columnOnLeft), literal.n, id);
      }
  }

  /**
   The analysis answers "no row" for every comparison of a column that the index schema lacks. Where the column is
   not shown from a field of another name, that answer is right on every document exactly when the comparison can
   never be TRUE of a NULL column, or of an id if the column is internal.
  */
  lemma {:induction false} MissingLeafAnswer(left: Expr, op: Operator, right: Expr, schema: Schema)
    requires DOC_ID !in schema && SEGMENT_ORD !in schema
    requires IsComparison(op) || IsNullSafe(op)
    requires ColumnAndLiteral(left, right).Some? && ColumnAndLiteral(left, right).value.0 !in schema
    ensures Analyze(BinaryExpr(left, op, right), schema) == MissingField
    ensures
      var (column, scalar, columnOnLeft) := ColumnAndLiteral(left, right).value;
      (forall doc :: ValidDoc(schema, doc) && column !in doc.shown ==>
         Eval(BinaryExpr(left, op, right), RowOf(doc)) != True) <==>
      NeverTrueWhenMissing(column, op, scalar, columnOnLeft)
  {
    var (column, scalar, columnOnLeft) := ColumnAndLiteral(left, right).value;
    var e := BinaryExpr(left, op, right);
    var id := SomeIdWitness(op, scalar, columnOnLeft);
    assert ValidDoc(schema, IdDoc(id));
    assert Eval(e, RowOf(IdDoc(id))) == CompareCell(CellOf(RowOf(IdDoc(id)), column), op, scalar, columnOnLeft);
    if NeverTrueWhenMissing(column, op, scalar, columnOnLeft) {
      forall doc | ValidDoc(schema, doc) && column !in doc.shown
        ensures Eval(e, RowOf(doc)) != True
      {
        if IsInternal(column) {
          NoIdSatisfies(op, scalar, columnOnLeft, if column == DOC_ID then doc.id else doc.segment);
        }
      }
    }
  }

  predicate LeafNeverTrueWhenMissing(leaf: Expr, schema: Schema) {
    match leaf
    case BinaryExpr(left, op, right) => (
      match ColumnAndLiteral(left, right)
      case Some((column, scalar, columnOnLeft)) =>
        column in schema ||
        (if IsComparison(op) || IsNullSafe(op) then NeverTrueWhenMissing(column, op, scalar, columnOnLeft)
         else !IsInternal(column))
      case None => true
    )
    case _ => true
  }

  /** The document shows nothing under a compared column that the index schema lacks, internal columns apart. */
  predicate LeafIsNull(leaf: Expr, schema: Schema, doc: Doc) {
    match leaf
    case BinaryExpr(left, _, right) => (
      match ColumnAndLiteral(left, right)
      case Some((column, _, _)) => column in schema || IsInternal(column) || column !in doc.shown
      case None => true
    )
    case _ => true
  }

  /**
   Whether a filter that is analysed as missing a field cannot be TRUE of the document: one side of an AND suffices
   that is itself analysed so, an OR has two such sides, and a comparison is one that a missing column, shown as NULL,
   cannot satisfy.
  */
  predicate NeverTrue(expr: Expr, schema: Schema, doc: Doc) {
    match expr
    case BinaryExpr(left, And, right) =>
      (Analyze(left, schema).MissingField? && NeverTrue(left, schema, doc)) ||
      (Analyze(right, schema).MissingField? && NeverTrue(right, schema, doc))
    case BinaryExpr(left, Or, right) => NeverTrue(left, schema, doc) && NeverTrue(right, schema, doc)
    case _ => LeafNeverTrueWhenMissing(expr, schema) && LeafIsNull(expr, schema, doc)
  }

  /** What the table asks of a filter that has a query on a split: exact literals and safe comparisons of addresses. */
  ghost predicate Pushable(expr: Expr, schema: Schema) {
    Translate(expr, schema).Some? ==> ExactLiterals(expr, schema) && AddressesSafe(expr, schema)
  }

  /**
   What it asks of a document: where the filter has a query, the cells it looks at stand for the values of the index;
   where it is answered as missing a field, it cannot be TRUE.
  */
  ghost predicate ShownFaithfully(expr: Expr, schema: Schema, doc: Doc) {
    && (Translate(expr, schema).Some? ==> CellsStandFor(expr, schema, doc))
    && (Analyze(expr, schema).MissingField? ==> NeverTrue(expr, schema, doc))
  }

  /** A filter analysed as missing a field is TRUE of no document of the split. */
  lemma {:induction false} MissingFieldIsNeverTrue(expr: Expr, schema: Schema, doc: Doc)
    requires DOC_ID !in schema && SEGMENT_ORD !in schema && ValidDoc(schema, doc)
    requires Analyze(expr, schema).MissingField? && NeverTrue(expr, schema, doc)
    ensures Eval(expr, RowOf(doc)) != True
  {
    if expr.op.And? || expr.op.Or? {
      if Analyze(expr.left, schema).MissingField? && NeverTrue(expr.left, schema, doc) {
        MissingFieldIsNeverTrue(expr.left, schema, doc);
      }
      if Analyze(expr.right, schema).MissingField? && NeverTrue(expr.right, schema, doc) {
        MissingFieldIsNeverTrue(expr.right, schema, doc);
      }
    } else if IsComparison(expr.op) || IsNullSafe(expr.op) {
      MissingComparisonIsNeverTrue(expr.left, expr.op, expr.right, schema, doc);
    }
  }

  lemma {:induction false} MissingComparisonIsNeverTrue(left: Expr, op: Operator, right: Expr, schema: Schema, doc: Doc)
    requires DOC_ID !in schema && SEGMENT_ORD !in schema && ValidDoc(schema, doc)
    requires IsComparison(op) || IsNullSafe(op)
    requires ColumnAndLiteral(left, right).Some? && ColumnAndLiteral(left, right).value.0 !in schema
    requires NeverTrue(BinaryExpr(left, op, right), schema, doc)
    ensures Eval(BinaryExpr(left, op, right), RowOf(doc)) != True
  {
    var column := ColumnAndLiteral(left, right).value.0;
    MissingLeafAnswer(left, op, right, schema);
    var clear := doc.(shown := doc.shown - {column});
    assert ValidDoc(schema, clear) && column !in clear.shown;
    assert CellOf(RowOf(doc), column) == CellOf(RowOf(clear), column);
  }

  // ---------------------------------------------------------------------------
  // The query of one split
  // ---------------------------------------------------------------------------

  /** The first filter that is not answered by a query. */
  function FirstUnanswered(exprs: seq<Expr>, schema: Schema): (n: nat)
    ensures n <= |exprs|
  {
    if exprs == [] || !Analyze(exprs[0], schema).Query? then 0
    else 1 + FirstUnanswered(exprs[1..], schema)
  }

  ghost predicate TranslatedMatch(exprs: seq<Expr>, schema: Schema, doc: Doc) {
    forall i :: 0 <= i < |exprs| && Translate(exprs[i], schema).Some? ==>
      Matches(Translate(exprs[i], schema).value, schema, doc)
  }

  /**
   What the fast-field query of a split lets through: the first filter without a query decides, a missing field
   letting nothing through and an unsupported filter everything; else all translated filters must match.
  */
  ghost predicate PushedMeaning(exprs: seq<Expr>, schema: Schema, doc: Doc) {
    var n := FirstUnanswered(exprs, schema);
    if n < |exprs| then Analyze(exprs[n], schema).Unsupported?
    else TranslatedMatch(exprs, schema, doc)
  }

  lemma {:induction false} FirstUnansweredIs(exprs: seq<Expr>, schema: Schema, n: nat)
    requires n <= |exprs| && forall i :: 0 <= i < n ==> Analyze(exprs[i], schema).Query?
    requires n < |exprs| ==> !Analyze(exprs[n], schema).Query?
    ensures FirstUnanswered(exprs, schema) == n
  {
    if n > 0 {
      FirstUnansweredIs(exprs[1..], schema, n - 1);
    }
  }

  lemma {:induction false} TranslatedMatchSnoc(exprs: seq<Expr>, n: nat, schema: Schema, doc: Doc)
    requires n < |exprs|
    ensures TranslatedMatch(exprs[..n + 1], schema, doc) <==>
      TranslatedMatch(exprs[..n], schema, doc) && MatchesOptional(Translate(exprs[n], schema), schema, doc)
  {
    assert exprs[..n + 1] == exprs[..n] + [exprs[n]];
  }

  method BuildSplitFastFieldQuery(exprs: seq<Expr>, schema: Schema) returns (q: Option<IndexQueries.Query>)
    ensures forall doc :: MatchesOptional(q, schema, doc) <==> PushedMeaning(exprs, schema, doc)
  {
    var queries: seq<IndexQueries.Query> := [];
    for n := 0 to |exprs|
      invariant forall i :: 0 <= i < n ==> Analyze(exprs[i], schema).Query?
      invariant forall doc :: AllMatch(queries, schema, doc) <==> TranslatedMatch(exprs[..n], schema, doc)
    {
      match Analyze(exprs[n], schema)
      case Query =>
        var translated := Translate(exprs[n], schema);
        forall doc {
          TranslatedMatchSnoc(exprs, n, schema, doc);
        }
        if translated.Some? {
          forall doc {
            AllMatchSnoc(queries, translated.value, schema, doc);
          }
          queries := queries + [translated.value];
        }
      case MissingField =>
        FirstUnansweredIs(exprs, schema, n);
        return Some(EmptyQuery);
      case Unsupported =>
        FirstUnansweredIs(exprs, schema, n);
        return None;
    }
    FirstUnansweredIs(exprs, schema, |exprs|);
    assert exprs[..|exprs|] == exprs;
    forall doc {
      ConjunctionMeaning(queries, [], schema, doc);
    }
    q := Conjunction(queries, []);
  }

  /** The pushed fast-field query never drops a document on which every pushed filter is TRUE. */
  lemma {:induction false} PushedQueryKeepsRows(exprs: seq<Expr>, schema: Schema, doc: Doc)
    requires DOC_ID !in schema && SEGMENT_ORD !in schema && ValidDoc(schema, doc)
    requires forall i :: 0 <= i < |exprs| ==>
      Pushable(exprs[i], schema) && ShownFaithfully(exprs[i], schema, doc) && !Analyze(exprs[i], schema).Unsupported?
    requires Satisfies(RowOf(doc), exprs)
    ensures PushedMeaning(exprs, schema, doc)
  {
    forall i | 0 <= i < |exprs|
      ensures Analyze(exprs[i], schema).Query?
      ensures Translate(exprs[i], schema).Some? ==> Matches(Translate(exprs[i], schema).value, schema, doc)
    {
      if Analyze(exprs[i], schema) == MissingField {
        MissingFieldIsNeverTrue(exprs[i], schema, doc);
      }
      if Translate(exprs[i], schema).Some? {
        TranslationIsSound(exprs[i], schema, doc);
      }
    }
    FirstUnansweredIs(exprs, schema, |exprs|);
  }

  // ---------------------------------------------------------------------------
  // Classification of the filters of a query
  // ---------------------------------------------------------------------------

  datatype Report = Exact | Inexact | NotSupported

  ghost function ReportFor(filter: Expr, splits: seq<Split>): Report {
    if ExtractFullTextFilter(filter).Some? || Disjuncts(filter).Some? then Exact
    else if PushdownSafe(filter, splits) then Inexact
    else NotSupported
  }

  method SupportsFiltersPushdown(filters: seq<Expr>, splits: seq<Split>) returns (reports: seq<Report>)
    ensures |reports| == |filters|
    ensures forall i :: 0 <= i < |filters| ==> reports[i] == ReportFor(filters[i], splits)
  {
    reports := [];
    for n := 0 to |filters|
      invariant |reports| == n
      invariant forall i :: 0 <= i < n ==> reports[i] == ReportFor(filters[i], splits)
    {
      var group := ExtractFullTextOrGroup(filters[n]);
      if ExtractFullTextFilter(filters[n]).Some? || group.Some? {
        reports := reports + [Exact];
      } else {
        var safe := FilterIsPushdownSafe(filters[n], splits);
        reports := reports + [if safe then Inexact else NotSupported];
      }
    }
  }

  datatype PushedDownFilters = PushedDownFilters(
    raws: seq<Pair>, nots: seq<Pair>, groups: seq<seq<Pair>>, fastField: seq<Expr>)

  /** Where each filter of a query goes, in the order of the filters. */
  ghost function Collected(filters: seq<Expr>, splits: seq<Split>): PushedDownFilters {
    if filters == [] then PushedDownFilters([], [], [], [])
    else
      var before := Collected(filters[..|filters| - 1], splits);
      var last := filters[|filters| - 1];
      match ExtractFullTextFilter(last)
      case Some(f) =>
        if f.negated then before.(nots := before.nots + [f.call]) else before.(raws := before.raws + [f.call])
      case None =>
        if Disjuncts(last).Some? then
          before.(groups := before.groups + [KeptCalls(Disjuncts(last).value, splits)])
        else if PushdownSafe(last, splits) then before.(fastField := before.fastField + [last])
        else before
  }

  method CollectPushedDownFilters(filters: seq<Expr>, splits: seq<Split>) returns (pushed: PushedDownFilters)
    ensures pushed == Collected(filters, splits)
  {
    pushed := PushedDownFilters([], [], [], []);
    for n := 0 to |filters|
      invariant pushed == Collected(filters[..n], splits)
    {
      assert filters[..n + 1][..n] == filters[..n];
      var fullText := ExtractFullTextFilter(filters[n]);
      if fullText.Some? {
        if fullText.value.negated {
          pushed := pushed.(nots := pushed.nots + [fullText.value.call]);
        } else {
          pushed := pushed.(raws := pushed.raws + [fullText.value.call]);
        }
      } else {
        var group := ExtractFullTextOrGroup(filters[n]);
        if group.Some? {
          var kept := ExistingFullTextGroup(group.value, splits);
          pushed := pushed.(groups := pushed.groups + [kept]);
        } else {
          var safe := FilterIsPushdownSafe(filters[n], splits);
          if safe {
            pushed := pushed.(fastField := pushed.fastField + [filters[n]]);
          }
        }
      }
    }
    assert filters[..|filters|] == filters;
  }

  /** The filters with a given report. */
  ghost function Reported(report: Report, filters: seq<Expr>, splits: seq<Split>): seq<Expr> {
    if filters == [] then []
    else
      var last := filters[|filters| - 1];
      Reported(report, filters[..|filters| - 1], splits) + (if ReportFor(last, splits) == report then [last] else [])
  }

  lemma {:induction false} ReportedStep(report: Report, filters: seq<Expr>, splits: seq<Split>)
    requires filters != []
    ensures var last := filters[|filters| - 1];
      var before := Reported(report, filters[..|filters| - 1], splits);
      Reported(report, filters, splits) == if ReportFor(last, splits) == report then before + [last] else before
  {
  }

  lemma {:induction false} SatisfiesSnoc(row: Row, filters: seq<Expr>, last: Expr)
    ensures Satisfies(row, filters + [last]) <==> Satisfies(row, filters) && Eval(last, row) == True
  {
    assert (filters + [last])[|filters|] == last;
    assert forall i :: 0 <= i < |filters| ==> (filters + [last])[i] == filters[i];
  }

  /** The three reports part the filters: a row satisfies all of them if and only if it satisfies each part. */
  lemma {:induction false} ReportsPartTheFilters(filters: seq<Expr>, splits: seq<Split>, row: Row)
    ensures Satisfies(row, filters) <==>
      Satisfies(row, Reported(Exact, filters, splits)) && Satisfies(row, Reported(Inexact, filters, splits)) &&
      Satisfies(row, Reported(NotSupported, filters, splits))
  {
    if filters == [] {
    } else {
      var n := |filters| - 1;
      ReportsPartTheFilters(filters[..n], splits, row);
      assert filters == filters[..n] + [filters[n]];
      SatisfiesSnoc(row, filters[..n], filters[n]);
      SatisfiesSnoc(row, Reported(ReportFor(filters[n], splits), filters[..n], splits), filters[n]);
      ReportedStep(Exact, filters, splits);
      ReportedStep(Inexact, filters, splits);
      ReportedStep(NotSupported, filters, splits);
    }
  }

  /** The filters handed to the index are exactly the ones reported Inexact. */
  lemma {:induction false} FastFieldFiltersAreTheInexactOnes(filters: seq<Expr>, splits: seq<Split>)
    ensures Collected(filters, splits).fastField == Reported(Inexact, filters, splits)
  {
    if filters == [] {
    } else {
      FastFieldFiltersAreTheInexactOnes(filters[..|filters| - 1], splits);
    }
  }

  /** The three kinds of full-text filters: a call, a negated call, and an OR tree of calls. */
  datatype FullTextKind = Required(call: Pair) | Negated(call: Pair) | Alternatives(calls: seq<Pair>)

  /** The kind of a filter that is reported Exact. */
  function KindOf(filter: Expr): Option<FullTextKind> {
    match ExtractFullTextFilter(filter)
    case Some(f) => Some(if f.negated then Negated(f.call) else Required(f.call))
    case None => if Disjuncts(filter).Some? then Some(Alternatives(Disjuncts(filter).value)) else None
  }

  ghost function RequiredCalls(filters: seq<Expr>): seq<Pair> {
    if filters == [] then []
    else
      var kind := KindOf(filters[|filters| - 1]);
      RequiredCalls(filters[..|filters| - 1]) + if kind.Some? && kind.value.Required? then [kind.value.call] else []
  }

  ghost function NegatedCalls(filters: seq<Expr>): seq<Pair> {
    if filters == [] then []
    else
      var kind := KindOf(filters[|filters| - 1]);
      NegatedCalls(filters[..|filters| - 1]) + if kind.Some? && kind.value.Negated? then [kind.value.call] else []
  }

  /** Calls on fields that no split has are dropped from the groups. */
  ghost function Groups(filters: seq<Expr>, splits: seq<Split>): seq<seq<Pair>> {
    if filters == [] then []
    else
      var kind := KindOf(filters[|filters| - 1]);
      Groups(filters[..|filters| - 1], splits) +
      if kind.Some? && kind.value.Alternatives? then [KeptCalls(kind.value.calls, splits)] else []
  }

  /**
   Every filter reported Exact has one kind, and lands in the list of its kind: the three lists are the calls of the
   required, the negated and the alternative ones among them, in order.
  */
  lemma {:induction false} ExactFiltersLandOnce(filters: seq<Expr>, splits: seq<Split>)
    ensures forall f :: f in Reported(Exact, filters, splits) ==> KindOf(f).Some?
    ensures Collected(filters, splits).raws == RequiredCalls(Reported(Exact, filters, splits))
    ensures Collected(filters, splits).nots == NegatedCalls(Reported(Exact, filters, splits))
    ensures Collected(filters, splits).groups == Groups(Reported(Exact, filters, splits), splits)
  {
    if filters == [] {
    } else {
      var last := filters[|filters| - 1];
      var before := Reported(Exact, filters[..|filters| - 1], splits);
      ExactFiltersLandOnce(filters[..|filters| - 1], splits);
      ReportedStep(Exact, filters, splits);
      assert (before + [last])[..|before|] == before;
    }
  }

  /** A call and a negated call end their lists with exactly that field and query, and touch no other list. */
  lemma {:induction false} CallsAreCollected(
      filters: seq<Expr>, call: Expr, field: string, query: string, splits: seq<Split>)
    requires IsCall(call, field, query)
    ensures var before := Collected(filters, splits);
      && Collected(filters + [call], splits) == before.(raws := before.raws + [(field, query)])
      && Collected(filters + [Not(call)], splits) == before.(nots := before.nots + [(field, query)])
  {
    ExtractorFindsCalls(call, field, query);
    assert (filters + [call])[..|filters|] == filters;
    assert (filters + [Not(call)])[..|filters|] == filters;
  }

  lemma {:induction false} FullTextMeaningSnoc(raws: seq<Pair>, nots: seq<Pair>, groups: seq<seq<Pair>>, row: Row)
    ensures forall call :: FullTextMeaning(raws + [call], nots, groups, row) <==>
      FullTextMeaning(raws, nots, groups, row) && call in row.hits
    ensures forall call :: FullTextMeaning(raws, nots + [call], groups, row) <==>
      FullTextMeaning(raws, nots, groups, row) && call !in row.hits
    ensures forall group :: FullTextMeaning(raws, nots, groups + [group], row) <==>
      FullTextMeaning(raws, nots, groups, row) && AnyHit(group, row)
  {
    forall call
      ensures FullTextMeaning(raws + [call], nots, groups, row) <==>
        FullTextMeaning(raws, nots, groups, row) && call in row.hits
    {
      assert (raws + [call])[|raws|] == call;
      assert forall i :: 0 <= i < |raws| ==> (raws + [call])[i] == raws[i];
    }
    forall call
      ensures FullTextMeaning(raws, nots + [call], groups, row) <==>
        FullTextMeaning(raws, nots, groups, row) && call !in row.hits
    {
      assert (nots + [call])[|nots|] == call;
      assert forall i :: 0 <= i < |nots| ==> (nots + [call])[i] == nots[i];
    }
    forall group
      ensures FullTextMeaning(raws, nots, groups + [group], row) <==>
        FullTextMeaning(raws, nots, groups, row) && AnyHit(group, row)
    {
      assert (groups + [group])[|groups|] == group;
      assert forall i :: 0 <= i < |groups| ==> (groups + [group])[i] == groups[i];
    }
  }

  /** The Exact claims are honoured: the full-text lists mean the conjunction of the filters reported Exact. */
  lemma {:induction false} ExactClaimsAreHonoured(filters: seq<Expr>, splits: seq<Split>, i: nat, doc: Doc)
    requires i < |splits| && ValidDoc(splits[i].schema, doc)
    ensures var pushed := Collected(filters, splits);
      FullTextMeaning(pushed.raws, pushed.nots, pushed.groups, RowOf(doc)) <==>
      Satisfies(RowOf(doc), Reported(Exact, filters, splits))
  {
    if filters == [] {
    } else {
      var n := |filters| - 1;
      var last := filters[n];
      ExactClaimsAreHonoured(filters[..n], splits, i, doc);
      var before := Collected(filters[..n], splits);
      FullTextMeaningSnoc(before.raws, before.nots, before.groups, RowOf(doc));
      SatisfiesSnoc(RowOf(doc), Reported(Exact, filters[..n], splits), last);
      ReportedStep(Exact, filters, splits);
      if ExtractFullTextFilter(last).Some? {
        FullTextFilterMeaning(last, RowOf(doc));
      } else if Disjuncts(last).Some? {
        DisjunctsMeaning(last, RowOf(doc));
        KeptCallsMeaning(Disjuncts(last).value, splits, i, doc);
      }
    }
  }

  // ---------------------------------------------------------------------------
  // The whole scan
  // ---------------------------------------------------------------------------

  /** The documents whose rows satisfy the filters, in order. */
  ghost function FilterRows(docs: seq<Doc>, filters: seq<Expr>): seq<Doc> {
    if docs == [] then []
    else
      var last := docs[|docs| - 1];
      FilterRows(docs[..|docs| - 1], filters) + (if Satisfies(RowOf(last), filters) then [last] else [])
  }

  /** The filters the scan does not answer exactly; the planner keeps them above the scan. */
  ghost function Residual(filters: seq<Expr>, splits: seq<Split>): seq<Expr> {
    Reported(Inexact, filters, splits) + Reported(NotSupported, filters, splits)
  }

  lemma {:induction false} SatisfiesConcat(row: Row, a: seq<Expr>, b: seq<Expr>)
    ensures Satisfies(row, a + b) <==> Satisfies(row, a) && Satisfies(row, b)
  {
    assert forall i :: 0 <= i < |a| ==> (a + b)[i] == a[i];
    assert forall i :: 0 <= i < |b| ==> (a + b)[|a| + i] == b[i];
  }

  lemma {:induction false} ReportedMembers(report: Report, filters: seq<Expr>, splits: seq<Split>)
    ensures forall f :: f in Reported(report, filters, splits) ==> f in filters && ReportFor(f, splits) == report
  {
    if filters == [] {
    } else {
      ReportedMembers(report, filters[..|filters| - 1], splits);
    }
  }

  /**
   One document under the whole pushdown: it is returned by the scan and satisfies the residual filters if and
   only if it satisfies the query.
  */
  lemma {:induction false} ScanAndResidualAnswerTheQuery(filters: seq<Expr>, splits: seq<Split>, i: nat, doc: Doc)
    requires i < |splits| && ValidSplit(splits[i]) && ValidDoc(splits[i].schema, doc)
    requires forall f :: f in filters && ReportFor(f, splits) == Inexact ==>
      Pushable(f, splits[i].schema) && ShownFaithfully(f, splits[i].schema, doc)
    ensures var pushed := Collected(filters, splits);
      (PushedMeaning(pushed.fastField, splits[i].schema, doc) &&
       FullTextMeaning(pushed.raws, pushed.nots, pushed.groups, RowOf(doc)) &&
       Satisfies(RowOf(doc), Residual(filters, splits))) <==>
      Satisfies(RowOf(doc), filters)
  {
    ReportsPartTheFilters(filters, splits, RowOf(doc));
    FastFieldFiltersAreTheInexactOnes(filters, splits);
    ExactClaimsAreHonoured(filters, splits, i, doc);
    var inexact := Reported(Inexact, filters, splits);
    SatisfiesConcat(RowOf(doc), inexact, Reported(NotSupported, filters, splits));
    ReportedMembers(Inexact, filters, splits);
    if Satisfies(RowOf(doc), inexact) {
      forall j | 0 <= j < |inexact|
        ensures Pushable(inexact[j], splits[i].schema) && ShownFaithfully(inexact[j], splits[i].schema, doc)
        ensures !Analyze(inexact[j], splits[i].schema).Unsupported?
      {
        assert inexact[j] in inexact;
      }
      PushedQueryKeepsRows(inexact, splits[i].schema, doc);
    }
  }

  /** The documents a query visits, in order. */
  ghost function Visited(docs: seq<Doc>, q: Option<IndexQueries.Query>, schema: Schema): seq<Doc> {
    if docs == [] then []
    else
      var last := docs[|docs| - 1];
      Visited(docs[..|docs| - 1], q, schema) + (if MatchesOptional(q, schema, last) then [last] else [])
  }

  lemma {:induction false} VisitedThenFiltered(
    docs: seq<Doc>, q: Option<IndexQueries.Query>, schema: Schema, residual: seq<Expr>, filters: seq<Expr>)
    requires forall i :: 0 <= i < |docs| ==>
      (MatchesOptional(q, schema, docs[i]) && Satisfies(RowOf(docs[i]), residual) <==>
       Satisfies(RowOf(docs[i]), filters))
    ensures FilterRows(Visited(docs, q, schema), residual) == FilterRows(docs, filters)
  {
    if docs == [] {
    } else {
      var n := |docs| - 1;
      var before := Visited(docs[..n], q, schema);
      VisitedThenFiltered(docs[..n], q, schema, residual, filters);
      assert (before + [docs[n]])[..|before|] == before;
      assert Visited(docs, q, schema) ==
        if MatchesOptional(q, schema, docs[n]) then before + [docs[n]] else before;
    }
  }

  method VisitDocs(split: Split, q: Option<IndexQueries.Query>) returns (rows: seq<Doc>)
    ensures rows == Visited(split.docs, q, split.schema)
  {
    rows := [];
    for n := 0 to |split.docs|
      invariant rows == Visited(split.docs[..n], q, split.schema)
    {
      assert split.docs[..n + 1][..n] == split.docs[..n];
      if MatchesOptional(q, split.schema, split.docs[n]) {
        rows := rows + [split.docs[n]];
      }
    }
    assert split.docs[..|split.docs|] == split.docs;
  }

  /** The filters handed to the index meet what is asked of them on the split, and so do its documents. */
  ghost predicate PushableOn(filters: seq<Expr>, splits: seq<Split>, i: nat)
    requires i < |splits|
  {
    forall f :: f in filters && ReportFor(f, splits) == Inexact ==>
      && Pushable(f, splits[i].schema)
      && forall n :: 0 <= n < |splits[i].docs| ==> ShownFaithfully(f, splits[i].schema, splits[i].docs[n])
  }

  /** The split's parser rejects a full-text call that is reached. */
  ghost predicate ScanFails(filters: seq<Expr>, splits: seq<Split>, i: nat)
    requires i < |splits|
  {
    var pushed := Collected(filters, splits);
    ParsingFails(splits[i], pushed.raws, pushed.nots, pushed.groups)
  }

  /**
   The scan of one split: plan the filters, build the split's query (a single split reuses the planner's), and
   return the matching documents.
  */
  method ScanSplit(filters: seq<Expr>, splits: seq<Split>, i: nat) returns (r: Result<seq<Doc>, Pair>)
    requires i < |splits| && ValidSplit(splits[i]) && PushableOn(filters, splits, i)
    ensures r.Ok? ==>
      FilterRows(r.value, Residual(filters, splits)) == FilterRows(splits[i].docs, filters)
    ensures r.Err? <==> ScanFails(filters, splits, i)
  {
    var split := splits[i];
    var pushed := CollectPushedDownFilters(filters, splits);
    var preBuilt: Option<IndexQueries.Query> := None;
    if |splits| == 1 {
      preBuilt := BuildSplitFastFieldQuery(pushed.fastField, splits[0].schema);
    }
    var fastFieldQuery := preBuilt;
    if preBuilt.None? {
      fastFieldQuery := BuildSplitFastFieldQuery(pushed.fastField, split.schema);
    }
    var combined := BuildCombinedQuery(split, fastFieldQuery, pushed.raws, pushed.nots, pushed.groups);
    if combined.Err? {
      return Err(combined.error);
    }
    var rows := VisitDocs(split, combined.value);
    forall n | 0 <= n < |split.docs|
      ensures
        MatchesOptional(combined.value, split.schema, split.docs[n]) &&
        Satisfies(RowOf(split.docs[n]), Residual(filters, splits)) <==>
        Satisfies(RowOf(split.docs[n]), filters)
    {
      ScanAndResidualAnswerTheQuery(filters, splits, i, split.docs[n]);
    }
    VisitedThenFiltered(split.docs, combined.value, split.schema, Residual(filters, splits), filters);
    return Ok(rows);
  }

  lemma {:induction false} FilterRowsAppend(a: seq<Doc>, b: seq<Doc>, filters: seq<Expr>)
    ensures FilterRows(a + b, filters) == FilterRows(a, filters) + FilterRows(b, filters)
  {
    if b == [] {
      assert a + b == a;
    } else {
      assert (a + b)[..|a + b| - 1] == a + b[..|b| - 1];
      FilterRowsAppend(a, b[..|b| - 1], filters);
    }
  }

  function AllDocs(splits: seq<Split>): seq<Doc> {
    if splits == [] then [] else splits[0].docs + AllDocs(splits[1..])
  }

  /**
   The whole table, one partition per split: if every partition answers its split under the residual filters, the
   partitions together answer the table.
  */
  lemma {:induction false} PartitionsAnswerTheTable(
    partitions: seq<seq<Doc>>, splits: seq<Split>, residual: seq<Expr>, filters: seq<Expr>)
    requires |partitions| == |splits|
    requires forall i :: 0 <= i < |splits| ==>
      FilterRows(partitions[i], residual) == FilterRows(splits[i].docs, filters)
    ensures FilterRows(Flatten(partitions), residual) == FilterRows(AllDocs(splits), filters)
  {
    if splits == [] {
    } else {
      PartitionsAnswerTheTable(partitions[1..], splits[1..], residual, filters);
      FilterRowsAppend(partitions[0], Flatten(partitions[1..]), residual);
      FilterRowsAppend(splits[0].docs, AllDocs(splits[1..]), filters);
    }
  }
}
