/**
 Scans sent to workers: which plans fit the wire, what a worker makes of them, and that a worker's scan under the
 residual filters gives the rows of the query.
*/
module PlanCodec {
  import opened Prelude
  import opened Expressions
  import opened IndexQueries
  import opened FilterTranslation
  import opened FullText
  import opened Pushdown
  import opened FilterCodec
  import TypeCoercion
  import ScanSchema

  type Field = TypeCoercion.Field

  /** A split descriptor travels as it is. */
  type Descriptor = string

  datatype Source = Source(
    splits: seq<Descriptor>, schema: ScanSchema.Plan,
    raws: seq<Pair>, nots: seq<Pair>, groups: seq<seq<Pair>>, fastField: seq<Expr>,
    topk: Option<nat>, rowLimit: Option<nat>)

  /** Numbers are 32 bits wide, and an optional number is a flag and a number. */
  datatype Wire = Wire(
    splits: seq<Descriptor>, canonical: seq<Field>, projection: seq<nat>, hasProjection: bool,
    raws: seq<Pair>, nots: seq<Pair>, groups: seq<seq<Pair>>, filters: seq<Record>,
    topk: nat, hasTopk: bool, rowLimit: nat, hasRowLimit: bool)

  predicate FitsU32(n: nat) {
    n <= Highest(U32)
  }

  function UsizeToU32(n: nat): Result<nat, string> {
    if FitsU32(n) then Ok(n) else Err("value exceeds codec u32 wire format")
  }

  ghost predicate OptionFits(n: Option<nat>) {
    n.Some? ==> n.value <= 0xFFFF_FFFF
  }

  ghost predicate FitsWire(source: Source) {
    && OptionFits(source.topk) && OptionFits(source.rowLimit)
    && (source.schema.projection.Some? ==>
          forall i :: 0 <= i < |source.schema.projection.value| ==> source.schema.projection.value[i] <= 0xFFFF_FFFF)
  }

  method EncodeIndices(indices: seq<nat>) returns (r: Result<seq<nat>, string>)
    ensures r.Ok? <==> forall i :: 0 <= i < |indices| ==> indices[i] <= 0xFFFF_FFFF
    ensures r.Ok? ==> r.value == indices
  {
    var encoded := [];
    for n := 0 to |indices|
      invariant encoded == indices[..n] && forall i :: 0 <= i < n ==> indices[i] <= 0xFFFF_FFFF
    {
      var index :- UsizeToU32(indices[n]);
      encoded := encoded + [index];
    }
    return Ok(encoded);
  }

  method EncodeOption(n: Option<nat>) returns (r: Result<(nat, bool), string>)
    ensures r.Ok? <==> OptionFits(n)
    ensures r.Ok? ==> r.value.1 == n.Some? && (n.Some? ==> r.value.0 == n.value)
  {
    if n.None? {
      return Ok((0, false));
    }
    var encoded :- UsizeToU32(n.value);
    return Ok((encoded, true));
  }

  function DecodeOption(n: nat, present: bool): Option<nat> {
    if present then Some(n) else None
  }

  /** The scan schema is not sent: it is rebuilt from the canonical schema and the projection. */
  method EncodeTantivyTablePlan(source: Source, texts: Texts) returns (r: Result<Wire, string>)
    requires source.schema.scoreIdx <= |source.schema.unified|
    ensures r.Ok? <==> FitsWire(source)
    ensures r.Ok? ==>
      && r.value.splits == source.splits
      && r.value.canonical == ScanSchema.CanonicalFastFieldSchema(source.schema)
      && (if r.value.hasProjection then Some(r.value.projection) else None) == source.schema.projection
      && (r.value.raws, r.value.nots, r.value.groups) == (source.raws, source.nots, source.groups)
      && r.value.filters == SerializeFastFieldFilters(source.fastField, texts)
      && DecodeOption(r.value.topk, r.value.hasTopk) == source.topk
      && DecodeOption(r.value.rowLimit, r.value.hasRowLimit) == source.rowLimit
  {
    var projection: seq<nat> := [];
    if source.schema.projection.Some? {
      projection :- EncodeIndices(source.schema.projection.value);
    }
    var topk :- EncodeOption(source.topk);
    var rowLimit :- EncodeOption(source.rowLimit);
    return Ok(Wire(
      source.splits, ScanSchema.CanonicalFastFieldSchema(source.schema), projection, source.schema.projection.Some?,
      source.raws, source.nots, source.groups, SerializeFastFieldFilters(source.fastField, texts),
      topk.0, topk.1, rowLimit.0, rowLimit.1));
  }

  method DecodeTantivyTable(wire: Wire, texts: Texts) returns (r: Result<Source, string>, ghost ff: seq<nat>)
    requires ScanSchema.InRange(
      ScanSchema.Indices(wire.canonical, if wire.hasProjection then Some(wire.projection) else None),
      |wire.canonical| + 2)
    ensures r.Ok? <==>
            && ScanSchema.IndexOf(wire.canonical, DOC_ID).Some?
            && ScanSchema.IndexOf(wire.canonical, SEGMENT_ORD).Some?
            && DeserializeFastFieldFilterExprs(wire.filters, texts).Ok?
    ensures r.Ok? ==>
      && ScanSchema.IsPlan(
        r.value.schema, wire.canonical, if wire.hasProjection then Some(wire.projection) else None, ff)
      && r.value == Source(
        wire.splits, r.value.schema, wire.raws, wire.nots, wire.groups,
        DeserializeFastFieldFilterExprs(wire.filters, texts).value,
        DecodeOption(wire.topk, wire.hasTopk), DecodeOption(wire.rowLimit, wire.hasRowLimit))
  {
    ff := [];
    if wire.canonical == [] {
      r := Err("missing canonical fast field schema");
      return;
    }
    var projection := if wire.hasProjection then Some(wire.projection) else None;
    var built;
    built, ff := ScanSchema.BuildTantivyTableScanSchema(wire.canonical, projection);
    var schema :- built;
    var exprs :- DeserializeFastFieldFilterExprs(wire.filters, texts);
    r := Ok(Source(
      wire.splits, schema, wire.raws, wire.nots, wire.groups, exprs,
      DecodeOption(wire.topk, wire.hasTopk), DecodeOption(wire.rowLimit, wire.hasRowLimit)));
  }

  /**
   A planned scan that is sent to a worker arrives whole, except that only the filters that are single comparisons
   do. It cannot be sent exactly when a projection index, the top-k or the row limit exceeds 32 bits.
  */
  method ShipPlan(source: Source, texts: Texts, ghost canonical: seq<Field>, ghost ff: seq<nat>)
    returns (r: Result<Source, string>)
    requires ScanSchema.IndexOf(canonical, DOC_ID).Some? && ScanSchema.IndexOf(canonical, SEGMENT_ORD).Some?
    requires ScanSchema.InRange(ScanSchema.Indices(canonical, source.schema.projection), |canonical| + 2)
    requires ScanSchema.IsPlan(source.schema, canonical, source.schema.projection, ff)
    requires LiteralsRoundTrip(source.fastField, texts)
    ensures r.Ok? <==> FitsWire(source)
    ensures r.Ok? ==> r.value == source.(fastField := Survivors(source.fastField))
  {
    ScanSchema.PlanIsDetermined(source.schema, source.schema, canonical, source.schema.projection, ff, ff);
    FiltersRoundTrip(source.fastField, texts);
    var wire :- EncodeTantivyTablePlan(source, texts);
    ghost var workerFf;
    r, workerFf := DecodeTantivyTable(wire, texts);
    ScanSchema.PlanIsDetermined(
      source.schema, r.value.schema, canonical, source.schema.projection, ff, workerFf);
  }

  // ---------------------------------------------------------------------------
  // The worker's scan
  // ---------------------------------------------------------------------------

  lemma {:induction false} NormalizeKeepsPushable(expr: Expr, schema: Schema, doc: Doc)
    requires Encodable(expr) && Pushable(expr, schema) && ShownFaithfully(expr, schema, doc)
    ensures Pushable(Normalize(expr), schema) && ShownFaithfully(Normalize(expr), schema, doc)
  {
    assert expr in Leaves(expr);
    var e := Normalize(expr);
    assert Leaves(e) == {e};
    var (column, scalar, columnOnLeft) := ColumnAndLiteral(expr.left, expr.right).value;
    assert ColumnAndLiteral(e.left, e.right) == Some((column, scalar, true));
    NormalizeKeepsMeaning(expr, RowOf(doc), schema);
    NormalizeKeepsNeverTrue(expr, schema, doc);
  }

  lemma {:induction false} NormalizeKeepsNeverTrue(expr: Expr, schema: Schema, doc: Doc)
    requires Encodable(expr)
    ensures NeverTrue(Normalize(expr), schema, doc) <==> NeverTrue(expr, schema, doc)
  {
  }

  /** The query of the filters that arrive never drops a document on which every filter sent is TRUE. */
  lemma {:induction false} SurvivorsKeepRows(exprs: seq<Expr>, schema: Schema, doc: Doc)
    requires DOC_ID !in schema && SEGMENT_ORD !in schema && ValidDoc(schema, doc)
    requires forall e :: e in exprs ==>
      Pushable(e, schema) && ShownFaithfully(e, schema, doc) && !Analyze(e, schema).Unsupported?
    requires Satisfies(RowOf(doc), exprs)
    ensures PushedMeaning(Survivors(exprs), schema, doc)
  {
    var survivors := Survivors(exprs);
    SurvivorsMeaning(exprs, RowOf(doc));
    SurvivorsAreNormalized(exprs);
    forall j | 0 <= j < |survivors|
      ensures Pushable(survivors[j], schema) && ShownFaithfully(survivors[j], schema, doc)
      ensures !Analyze(survivors[j], schema).Unsupported?
    {
      assert survivors[j] in survivors;
      var e :| e in exprs && Encodable(e) && survivors[j] == Normalize(e);
      NormalizeKeepsPushable(e, schema, doc);
      NormalizeKeepsMeaning(e, RowOf(doc), schema);
    }
    PushedQueryKeepsRows(survivors, schema, doc);
  }

  /**
   Losing filters on the way costs no rows and adds none: a document that passes the worker's query and the filters
   kept above the scan is one that satisfies the query, and conversely.
  */
  lemma {:induction false} WorkerScanAnswersTheQuery(filters: seq<Expr>, splits: seq<Split>, i: nat, doc: Doc)
    requires i < |splits| && ValidSplit(splits[i]) && ValidDoc(splits[i].schema, doc)
    requires forall f :: f in filters && ReportFor(f, splits) == Inexact ==>
      Pushable(f, splits[i].schema) && ShownFaithfully(f, splits[i].schema, doc)
    ensures var pushed := Collected(filters, splits);
      (PushedMeaning(Survivors(pushed.fastField), splits[i].schema, doc) &&
       FullTextMeaning(pushed.raws, pushed.nots, pushed.groups, RowOf(doc)) &&
       Satisfies(RowOf(doc), Residual(filters, splits))) <==>
      Satisfies(RowOf(doc), filters)
  {
    ReportsPartTheFilters(filters, splits, RowOf(doc));
    FastFieldFiltersAreTheInexactOnes(filters, splits);
    ExactClaimsAreHonoured(filters, splits, i, doc);
    var inexact := Reported(Inexact, filters, splits);
    SatisfiesConcat(RowOf(doc), inexact, Reported(NotSupported, filters, splits));
    ReportedMembers(Inexact, filters, splits);
    if Satisfies(RowOf(doc), inexact) {
      SurvivorsKeepRows(inexact, splits[i].schema, doc);
    }
  }
}
