/** Splits, documents and the index queries that run on them. */
module IndexQueries {
  import opened Prelude
  import opened Expressions

  /** How addresses are written, and which address a text is read as; several texts may be read as one address. */
  datatype AddressTable = AddressTable(names: map<nat, string>, parse: map<string, nat>)

  /** An address that is written as a text that is read as the address. */
  predicate IsAddress(table: AddressTable, a: nat) {
    a in table.names && table.names[a] in table.parse && table.parse[table.names[a]] == a
  }

  /** The index orders addresses by number, and keeps dates to the precision of their field. */
  datatype FieldType =
    | I64Field | U64Field | F64Field | BoolField | StrField | BytesField
    | DateField(precision: TimeUnit)
    | IpField(table: AddressTable)
    | FacetField | JsonField

  datatype FieldEntry = FieldEntry(kind: FieldType, fast: bool, indexed: bool)

  type Schema = map<string, FieldEntry>

  datatype Bound = Unbounded | Included(term: Value) | Excluded(term: Value)

  datatype Query =
    | AllQuery
    | EmptyQuery
    | TermQuery(field: string, term: Value)
    | RangeQuery(field: string, lower: Bound, upper: Bound)
    | ParsedQuery(field: string, text: string)
    | Intersection(queries: seq<Query>)
    | Union(queries: seq<Query>)
    | MustAndMustNot(must: Query, mustNot: seq<Query>)

  /**
   A document of one split. `values` are its single-valued fast fields as the index has them, and `shown` are the
   cells the table shows; a column without a cell is NULL. A cell may come from a field of another name.
  */
  datatype Doc = Doc(
    segment: nat, id: nat,
    values: map<string, Value>, shown: map<string, Value>,
    hits: set<(string, string)>, other: map<Expr, Truth>)

  /** `unparsable` are the (field, query) pairs that the split's query parser rejects. */
  datatype Split = Split(schema: Schema, docs: seq<Doc>, unparsable: set<(string, string)>)

  predicate ValueFits(kind: FieldType, v: Value) {
    match (kind, v)
    case (I64Field, Number(n)) => n == n.Floor as real && Fits(n.Floor, I64)
    case (U64Field, Number(n)) => n == n.Floor as real && Fits(n.Floor, U64)
    case (F64Field, Number(_)) => true
    case (BoolField, Flag(_)) => true
    case (StrField, Text(_)) => true
    case (DateField(precision), Instant(nanos)) => Fits(nanos, I64) && nanos % NanosPer(precision) == 0
    case (BytesField, Bytes(_)) => true
    case (IpField(table), Address(a)) => IsAddress(table, a)
    case _ => false
  }

  /** Document ids and segment ordinals are 32-bit unsigned. */
  ghost predicate ValidDoc(schema: Schema, doc: Doc) {
    && Fits(doc.id, U32) && Fits(doc.segment, U32)
    && (forall c :: c in doc.values ==> c in schema && ValueFits(schema[c].kind, doc.values[c]))
    && (forall h :: h in doc.hits ==> h.0 in schema)
  }

  ghost predicate ValidSplit(split: Split) {
    && DOC_ID !in split.schema
    && SEGMENT_ORD !in split.schema
    && (forall i :: 0 <= i < |split.docs| ==> ValidDoc(split.schema, split.docs[i]))
  }

  /** The row the table shows for a document: internal columns, its shown cells, NULL elsewhere. */
  function RowOf(doc: Doc): Row {
    Row(doc.shown[DOC_ID := Number(doc.id as real)][SEGMENT_ORD := Number(doc.segment as real)], doc.hits, doc.other)
  }

  /** The value the index compares a term with. */
  function DocKey(field: string, schema: Schema, doc: Doc): Option<Value> {
    if field in doc.values && field in schema then Some(doc.values[field]) else None
  }

  predicate AboveLower(key: Value, lower: Bound) {
    match lower
    case Unbounded => true
    case Included(t) => Less(t, key) || t == key
    case Excluded(t) => Less(t, key)
  }

  predicate BelowUpper(key: Value, upper: Bound) {
    match upper
    case Unbounded => true
    case Included(t) => Less(key, t) || t == key
    case Excluded(t) => Less(key, t)
  }

  /**
   Whether the document is in the posting list of the term. A field that is not indexed has no postings, and those of a
   text field are of the tokens that its full-text queries look for.
  */
  predicate IsPosted(field: string, term: Value, schema: Schema, doc: Doc) {
    && field in schema && schema[field].indexed
    && (if schema[field].kind == StrField then term.Text? && (field, term.s) in doc.hits
        else DocKey(field, schema, doc) == Some(term))
  }

  predicate Matches(q: Query, schema: Schema, doc: Doc) {
    match q
    case AllQuery => true
    case EmptyQuery => false
    case TermQuery(field, term) => IsPosted(field, term, schema, doc)
    case RangeQuery(field, lower, upper) =>
      var key := DocKey(field, schema, doc);
      key.Some? && AboveLower(key.value, lower) && BelowUpper(key.value, upper)
    case ParsedQuery(field, text) => (field, text) in doc.hits
    case Intersection(queries) => forall i :: 0 <= i < |queries| ==> Matches(queries[i], schema, doc)
    case Union(queries) => exists i :: 0 <= i < |queries| && Matches(queries[i], schema, doc)
    case MustAndMustNot(must, mustNot) =>
      Matches(must, schema, doc) && forall i :: 0 <= i < |mustNot| ==> !Matches(mustNot[i], schema, doc)
  }

  /** A scan without a query visits every document. */
  predicate MatchesOptional(q: Option<Query>, schema: Schema, doc: Doc) {
    q.Some? ==> Matches(q.value, schema, doc)
  }
}
