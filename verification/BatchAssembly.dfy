/**
 Output batches: fast fields and scores are put together on the scanning side, and documents are looked up and
 inserted on the forwarding side.
*/
module BatchAssembly {
  import opened Prelude
  import opened Expressions
  import opened TypeCoercion
  import opened ScanSchema

  /** `Ordinal` cells are those of the two address columns. */
  datatype Cell = NullCell | Ordinal(n: nat) | Score(s: real) | Json(document: string) | FastField(v: Value)

  type Array = seq<Cell>

  datatype Batch = Batch(fields: seq<Field>, columns: seq<Array>, rows: nat)

  ghost predicate ValidBatch(batch: Batch) {
    && |batch.columns| == |batch.fields|
    && (forall c :: 0 <= c < |batch.columns| ==> |batch.columns[c]| == batch.rows)
  }

  predicate AreOrdinals(column: Array) {
    forall i :: 0 <= i < |column| ==> column[i].Ordinal?
  }

  function ColumnNamed(batch: Batch, name: string): Array
    requires ValidBatch(batch) && IndexOf(batch.fields, name).Some?
  {
    batch.columns[IndexOf(batch.fields, name).value]
  }

  /** Fails without a column to tell the number of rows, and for columns of different lengths. */
  function TryNew(fields: seq<Field>, columns: seq<Array>): Result<Batch, string> {
    if columns == [] then Err("must either specify a row count or at least one column")
    else if |columns| == |fields| && forall c :: 0 <= c < |columns| ==> |columns[c]| == |columns[0]| then
      Ok(Batch(fields, columns, |columns[0]|))
    else Err("all columns in a record batch must have the same length")
  }

  // ---------------------------------------------------------------------------
  // The scanning side
  // ---------------------------------------------------------------------------

  function ScoreColumn(scores: Option<seq<real>>, rows: nat): Array {
    if scores.Some? then seq(|scores.value|, i requires 0 <= i < |scores.value| => Score(scores.value[i]))
    else seq(rows, i => NullCell)
  }

  /** What a column of that name has to hold for the documents of a chunk. */
  ghost function Expected(ffBatch: Batch, scores: Option<seq<real>>, name: string): Array
    requires ValidBatch(ffBatch)
  {
    if name == SCORE then ScoreColumn(scores, ffBatch.rows)
    else if IndexOf(ffBatch.fields, name).Some? then ColumnNamed(ffBatch, name)
    else []
  }

  /** Every column holds what its name says. */
  ghost predicate Faithful(batch: Batch, ffBatch: Batch, scores: Option<seq<real>>)
    requires ValidBatch(ffBatch)
  {
    && ValidBatch(batch) && batch.rows == ffBatch.rows
    && (forall c :: 0 <= c < |batch.columns| ==> batch.columns[c] == Expected(ffBatch, scores, batch.fields[c].name))
  }

  /** Every column called `_score` has score i in row i, or NULL in every row when nothing is scored. */
  ghost predicate ScoresInPlace(batch: Batch, scores: Option<seq<real>>)
    requires ValidBatch(batch) && (scores.Some? ==> |scores.value| == batch.rows)
  {
    forall c, i :: 0 <= c < |batch.columns| && 0 <= i < batch.rows && batch.fields[c].name == "_score" ==>
      batch.columns[c][i] == if scores.Some? then Score(scores.value[i]) else NullCell
  }

  /** The projected fields, without `_document`. */
  function FieldsWithoutDocument(unified: seq<Field>, indices: seq<nat>, documentIdx: nat): seq<Field>
    requires InRange(indices, |unified|)
  {
    if indices == [] then []
    else
      var init, last := indices[..|indices| - 1], indices[|indices| - 1];
      FieldsWithoutDocument(unified, init, documentIdx) + if last == documentIdx then [] else [unified[last]]
  }

  lemma {:induction false} NothingLeftOut(unified: seq<Field>, indices: seq<nat>, documentIdx: nat)
    requires InRange(indices, |unified|)
    requires forall i :: 0 <= i < |indices| ==> indices[i] != documentIdx
    ensures FieldsWithoutDocument(unified, indices, documentIdx) == Pick(unified, indices)
  {
    if indices == [] {
    } else {
      var init, last := indices[..|indices| - 1], indices[|indices| - 1];
      NothingLeftOut(unified, init, documentIdx);
      assert Pick(unified, indices) == Pick(unified, init) + [unified[last]];
    }
  }

  predicate IsProjected(name: string, unified: seq<Field>, indices: seq<nat>)
    requires InRange(indices, |unified|)
  {
    exists i :: 0 <= i < |indices| && unified[indices[i]].name == name
  }

  /** An address column that is needed for documents but was not asked for. */
  function Address(field: Field, plan: Plan, indices: seq<nat>): seq<Field>
    requires InRange(indices, |plan.unified|)
  {
    if plan.needsDocument && !IsProjected(field.name, plan.unified, indices) then [field] else []
  }

  /** The projected fields without `_document`, after the addresses needed to find the documents. */
  ghost function IntermediateFields(plan: Plan, indices: seq<nat>): seq<Field>
    requires InRange(indices, |plan.unified|)
  {
    (if plan.needsDocument && IsAbsent("_doc_id", plan.unified, indices) then [DOC_ID_FIELD] else []) +
    (if plan.needsDocument && IsAbsent("_segment_ord", plan.unified, indices) then [SEGMENT_ORD_FIELD] else []) +
    FieldsWithoutDocument(plan.unified, indices, plan.documentIdx)
  }

  ghost predicate IsAbsent(name: string, unified: seq<Field>, indices: seq<nat>)
    requires InRange(indices, |unified|)
  {
    forall i :: 0 <= i < |indices| ==> unified[indices[i]].name != name
  }

  lemma {:induction false} IntermediateIs(plan: Plan, indices: seq<nat>)
    requires InRange(indices, |plan.unified|)
    ensures IntermediateFields(plan, indices) ==
            Address(DOC_ID_FIELD, plan, indices) + Address(SEGMENT_ORD_FIELD, plan, indices) +
            FieldsWithoutDocument(plan.unified, indices, plan.documentIdx)
  {
  }

  function Push(batch: Batch, field: Field, column: Array): Batch {
    batch.(fields := batch.fields + [field], columns := batch.columns + [column])
  }

  /** Adds an address column unless it is among the projected ones. */
  method PushAddress(batch: Batch, field: Field, ffBatch: Batch, plan: Plan, indices: seq<nat>,
                     ghost scores: Option<seq<real>>)
    returns (longer: Batch)
    requires InRange(indices, |plan.unified|) && field.name != SCORE
    requires ValidBatch(ffBatch) && Faithful(batch, ffBatch, scores)
    requires plan.needsDocument ==> IndexOf(ffBatch.fields, field.name).Some?
    ensures Faithful(longer, ffBatch, scores)
    ensures longer.fields == batch.fields + Address(field, plan, indices)
  {
    longer := batch;
    if plan.needsDocument && !IsProjected(field.name, plan.unified, indices) {
      var position := IndexOf(ffBatch.fields, field.name);
      if position.Some? {
        longer := Push(batch, field, ffBatch.columns[position.value]);
      }
    }
  }

  /** Everything a projected index can need is there, and `_score` is only a name of the score column. */
  ghost predicate Readable(ffBatch: Batch, plan: Plan, indices: seq<nat>) {
    && ValidBatch(ffBatch) && plan.documentIdx == plan.scoreIdx + 1 && |plan.unified| == plan.scoreIdx + 2
    && InRange(indices, |plan.unified|)
    && (forall i :: 0 <= i < |indices| ==>
          if indices[i] < plan.scoreIdx then
            plan.unified[indices[i]].name != SCORE &&
            IndexOf(ffBatch.fields, plan.unified[indices[i]].name).Some?
          else indices[i] == plan.scoreIdx ==> plan.unified[indices[i]].name == SCORE && plan.needsScore)
    && (plan.needsDocument ==>
          IndexOf(ffBatch.fields, DOC_ID).Some? && IndexOf(ffBatch.fields, SEGMENT_ORD).Some?)
  }

  /** One projected column: the document is left for later, and no other column is ever missing. */
  method PushProjected(batch: Batch, ffBatch: Batch, plan: Plan, indices: seq<nat>, n: nat, scores: Option<seq<real>>)
    returns (longer: Batch)
    requires Readable(ffBatch, plan, indices) && n < |indices| && Faithful(batch, ffBatch, scores)
    requires scores.Some? ==> |scores.value| == ffBatch.rows
    ensures Faithful(longer, ffBatch, scores)
    ensures longer.fields == batch.fields + if indices[n] == plan.documentIdx then [] else [plan.unified[indices[n]]]
  {
    var idx := indices[n];
    if idx == plan.documentIdx {
      return batch;
    }
    var field := plan.unified[idx];
    if idx == plan.scoreIdx {
      return Push(batch, field, ScoreColumn(if plan.needsScore then scores else None, ffBatch.rows));
    }
    var position := IndexOf(ffBatch.fields, field.name);
    if position.None? {
      assert false;
      return batch;
    }
    return Push(batch, field, ffBatch.columns[position.value]);
  }

  method PushAllProjected(batch: Batch, ffBatch: Batch, plan: Plan, indices: seq<nat>, scores: Option<seq<real>>)
    returns (longer: Batch)
    requires Readable(ffBatch, plan, indices) && Faithful(batch, ffBatch, scores)
    requires scores.Some? ==> |scores.value| == ffBatch.rows
    ensures Faithful(longer, ffBatch, scores)
    ensures longer.fields == batch.fields + FieldsWithoutDocument(plan.unified, indices, plan.documentIdx)
  {
    longer := batch;
    for n := 0 to |indices|
      invariant Faithful(longer, ffBatch, scores)
      invariant longer.fields == batch.fields + FieldsWithoutDocument(plan.unified, indices[..n], plan.documentIdx)
    {
      FieldsSnoc(plan.unified, indices, n, plan.documentIdx);
      longer := PushProjected(longer, ffBatch, plan, indices, n, scores);
    }
    assert indices[..|indices|] == indices;
  }

  lemma {:induction false} FieldsSnoc(unified: seq<Field>, indices: seq<nat>, n: nat, documentIdx: nat)
    requires InRange(indices, |unified|) && n < |indices|
    ensures FieldsWithoutDocument(unified, indices[..n + 1], documentIdx) ==
            FieldsWithoutDocument(unified, indices[..n], documentIdx) +
            if indices[n] == documentIdx then [] else [unified[indices[n]]]
  {
    assert indices[..n + 1][..n] == indices[..n];
  }

  lemma {:induction false} FaithfulScores(batch: Batch, ffBatch: Batch, scores: Option<seq<real>>)
    requires ValidBatch(ffBatch) && (scores.Some? ==> |scores.value| == ffBatch.rows)
    requires Faithful(batch, ffBatch, scores)
    ensures ScoresInPlace(batch, scores)
  {
  }

  method PushAll(ffBatch: Batch, plan: Plan, indices: seq<nat>, scores: Option<seq<real>>) returns (batch: Batch)
    requires Readable(ffBatch, plan, indices)
    requires scores.Some? ==> |scores.value| == ffBatch.rows
    ensures Faithful(batch, ffBatch, scores)
    ensures batch.fields == IntermediateFields(plan, indices)
  {
    batch := Batch([], [], ffBatch.rows);
    batch := PushAddress(batch, DOC_ID_FIELD, ffBatch, plan, indices, scores);
    batch := PushAddress(batch, SEGMENT_ORD_FIELD, ffBatch, plan, indices, scores);
    batch := PushAllProjected(batch, ffBatch, plan, indices, scores);
    IntermediateIs(plan, indices);
  }

  /** Each output column holds what its name says. */
  method BuildChunk(ffBatch: Batch, plan: Plan, indices: seq<nat>, scores: Option<seq<real>>)
    returns (r: Result<Batch, string>)
    requires Readable(ffBatch, plan, indices)
    requires scores.Some? ==> |scores.value| == ffBatch.rows
    ensures r.Ok? && Faithful(r.value, ffBatch, scores) && ScoresInPlace(r.value, scores)
    ensures r.value.fields == IntermediateFields(plan, indices)
  {
    var batch := PushAll(ffBatch, plan, indices, scores);
    FaithfulScores(batch, ffBatch, scores);
    r := if batch.columns == [] then Ok(batch) else TryNew(batch.fields, batch.columns);
  }

  // ---------------------------------------------------------------------------
  // The forwarding side
  // ---------------------------------------------------------------------------

  type Fetch = (nat, nat) -> Result<string, string>

  ghost predicate AllFetched(docIds: Array, segmentOrds: Array, fetch: Fetch)
    requires AreOrdinals(docIds) && AreOrdinals(segmentOrds) && |docIds| == |segmentOrds|
  {
    forall i :: 0 <= i < |docIds| ==> fetch(segmentOrds[i].n, docIds[i].n).Ok?
  }

  /** Document i is the one at address i. */
  ghost predicate AreDocuments(docs: Array, docIds: Array, segmentOrds: Array, fetch: Fetch)
    requires AreOrdinals(docIds) && AreOrdinals(segmentOrds) && |docIds| == |segmentOrds|
  {
    && |docs| == |docIds|
    && (forall i :: 0 <= i < |docs| ==>
          var document := fetch(segmentOrds[i].n, docIds[i].n);
          document.Ok? && docs[i] == Json(document.value))
  }

  method FetchDocuments(docIds: Array, segmentOrds: Array, fetch: Fetch) returns (r: Result<Array, string>)
    requires AreOrdinals(docIds) && AreOrdinals(segmentOrds) && |docIds| == |segmentOrds|
    ensures r.Ok? <==> AllFetched(docIds, segmentOrds, fetch)
    ensures r.Ok? ==> AreDocuments(r.value, docIds, segmentOrds, fetch)
  {
    var docs := [];
    for i := 0 to |docIds|
      invariant AllFetched(docIds[..i], segmentOrds[..i], fetch)
      invariant AreDocuments(docs, docIds[..i], segmentOrds[..i], fetch)
    {
      var document := fetch(segmentOrds[i].n, docIds[i].n);
      if document.Err? {
        return Err(document.error);
      }
      docs := docs + [Json(document.value)];
    }
    assert docIds[..|docIds|] == docIds && segmentOrds[..|docIds|] == segmentOrds;
    return Ok(docs);
  }

  /** Whether the batch has the two address columns. */
  ghost predicate HasAddresses(batch: Batch)
    requires ValidBatch(batch)
  {
    && IndexOf(batch.fields, DOC_ID).Some? && AreOrdinals(ColumnNamed(batch, DOC_ID))
    && IndexOf(batch.fields, SEGMENT_ORD).Some? && AreOrdinals(ColumnNamed(batch, SEGMENT_ORD))
  }

  ghost predicate HasColumns(batch: Batch, fields: seq<Field>) {
    forall c :: 0 <= c < |fields| && fields[c].name != DOCUMENT ==> IndexOf(batch.fields, fields[c].name).Some?
  }

  /** Exactly the wanted fields, each from the batch or, for `_document`, from the documents. */
  ghost predicate Inserted(output: Batch, wanted: seq<Field>, batch: Batch, docs: Array)
    requires ValidBatch(batch) && HasColumns(batch, wanted)
  {
    && output.fields == wanted && |output.columns| == |wanted|
    && (forall c :: 0 <= c < |wanted| ==>
          output.columns[c] == if wanted[c].name == DOCUMENT then docs else ColumnNamed(batch, wanted[c].name))
  }

  method InsertDocuments(batch: Batch, wanted: seq<Field>, docArray: Array) returns (r: Result<seq<Array>, string>)
    requires ValidBatch(batch) && |docArray| == batch.rows
    ensures r.Ok? <==> HasColumns(batch, wanted)
    ensures r.Ok? ==> |r.value| == |wanted| && forall c :: 0 <= c < |wanted| ==> |r.value[c]| == batch.rows
    ensures r.Ok? ==> Inserted(Batch(wanted, r.value, batch.rows), wanted, batch, docArray)
  {
    var columns := [];
    for c := 0 to |wanted|
      invariant |columns| == c
      invariant forall k :: 0 <= k < c && wanted[k].name != DOCUMENT ==> IndexOf(batch.fields, wanted[k].name).Some?
      invariant forall k :: 0 <= k < c ==>
        columns[k] == if wanted[k].name == DOCUMENT then docArray else ColumnNamed(batch, wanted[k].name)
    {
      if wanted[c].name == DOCUMENT {
        columns := columns + [docArray];
      } else {
        var position := IndexOf(batch.fields, wanted[c].name);
        if position.None? {
          return Err("column not found in intermediate batch");
        }
        columns := columns + [batch.columns[position.value]];
      }
    }
    return Ok(columns);
  }

  /** Fails exactly when a column is missing or a document cannot be fetched. */
  method FillDocumentColumn(batch: Batch, wanted: seq<Field>, fetch: Fetch)
    returns (r: Result<Batch, string>, ghost docs: Array)
    requires ValidBatch(batch) && wanted != []
    ensures r.Ok? <==>
            HasAddresses(batch) && HasColumns(batch, wanted) &&
            AllFetched(ColumnNamed(batch, DOC_ID), ColumnNamed(batch, SEGMENT_ORD), fetch)
    ensures r.Ok? ==>
      ValidBatch(r.value) && r.value.rows == batch.rows && Inserted(r.value, wanted, batch, docs) &&
      AreDocuments(docs, ColumnNamed(batch, DOC_ID), ColumnNamed(batch, SEGMENT_ORD), fetch)
  {
    docs := [];
    var docId, segmentOrd := IndexOf(batch.fields, DOC_ID), IndexOf(batch.fields, SEGMENT_ORD);
    if docId.None? || segmentOrd.None? {
      r := Err("address column required for document fetch but not in batch");
      return;
    }
    var docIds, segmentOrds := batch.columns[docId.value], batch.columns[segmentOrd.value];
    if !AreOrdinals(docIds) || !AreOrdinals(segmentOrds) {
      r := Err("address column is not UInt32");
      return;
    }
    var docArray :- FetchDocuments(docIds, segmentOrds, fetch);
    docs := docArray;
    var columns :- InsertDocuments(batch, wanted, docArray);
    r := TryNew(wanted, columns);
  }

  // ---------------------------------------------------------------------------
  // A whole scan
  // ---------------------------------------------------------------------------

  /** What a planned scan hands to the assembly: the planned fast fields of a chunk, addresses as numbers. */
  ghost predicate IsChunk(ffBatch: Batch, plan: Plan) {
    && ValidBatch(ffBatch) && ffBatch.fields == plan.ffProjected
    && (IndexOf(ffBatch.fields, DOC_ID).Some? ==> AreOrdinals(ColumnNamed(ffBatch, DOC_ID)))
    && (IndexOf(ffBatch.fields, SEGMENT_ORD).Some? ==> AreOrdinals(ColumnNamed(ffBatch, SEGMENT_ORD)))
  }

  /** No projected fast field is called `_score` or `_document`. */
  ghost predicate NamesClear(canonical: seq<Field>, indices: seq<nat>) {
    forall i :: 0 <= i < |indices| && indices[i] < |canonical| ==>
      canonical[indices[i]].name != SCORE && canonical[indices[i]].name != DOCUMENT
  }

  ghost predicate Planned(plan: Plan, canonical: seq<Field>, projection: Option<seq<nat>>, ff: seq<nat>) {
    && IndexOf(canonical, DOC_ID).Some? && IndexOf(canonical, SEGMENT_ORD).Some?
    && InRange(Indices(canonical, projection), |canonical| + 2)
    && NamesClear(canonical, Indices(canonical, projection))
    && IsPlan(plan, canonical, projection, ff)
  }

  lemma {:induction false} PlanIsReadable(
      ffBatch: Batch, plan: Plan, canonical: seq<Field>, projection: Option<seq<nat>>, ff: seq<nat>)
    requires Planned(plan, canonical, projection, ff) && IsChunk(ffBatch, plan)
    ensures Readable(ffBatch, plan, Indices(canonical, projection))
  {
    EveryColumnIsRead(plan, canonical, projection, ff);
    var indices, unified := Indices(canonical, projection), Unified(canonical);
    forall i | 0 <= i < |indices| && indices[i] < plan.scoreIdx
      ensures unified[indices[i]].name != SCORE
      ensures IndexOf(ffBatch.fields, unified[indices[i]].name).Some?
    {
      assert unified[indices[i]] == canonical[indices[i]];
      assert unified[|canonical|].name == SCORE;
    }
  }

  lemma {:induction false} ProjectedIsThere(unified: seq<Field>, indices: seq<nat>, documentIdx: nat, i: nat)
    requires InRange(indices, |unified|) && i < |indices| && indices[i] != documentIdx
    ensures unified[indices[i]] in FieldsWithoutDocument(unified, indices, documentIdx)
  {
    if i == |indices| - 1 {
    } else {
      ProjectedIsThere(unified, indices[..|indices| - 1], documentIdx, i);
    }
  }

  /** Every projected column but the document, and both addresses, can be found in the intermediate batch. */
  lemma {:induction false} IntermediateHasColumns(
      batch: Batch, plan: Plan, canonical: seq<Field>, projection: Option<seq<nat>>,
                               ff: seq<nat>)
    requires Planned(plan, canonical, projection, ff) && plan.needsDocument
    requires batch.fields == IntermediateFields(plan, Indices(canonical, projection))
    ensures HasColumns(batch, plan.projected)
    ensures IndexOf(batch.fields, DOC_ID).Some? && IndexOf(batch.fields, SEGMENT_ORD).Some?
  {
    var indices, unified := Indices(canonical, projection), Unified(canonical);
    var rest := FieldsWithoutDocument(unified, indices, plan.documentIdx);
    assert unified[plan.documentIdx].name == DOCUMENT;
    forall i | 0 <= i < |indices| && unified[indices[i]].name != DOCUMENT
      ensures IndexOf(batch.fields, unified[indices[i]].name).Some?
    {
      ProjectedIsThere(unified, indices, plan.documentIdx, i);
      assert unified[indices[i]] in batch.fields;
    }
    AddressIsThere(batch.fields, DOC_ID_FIELD, plan, indices);
    AddressIsThere(batch.fields, SEGMENT_ORD_FIELD, plan, indices);
  }

  lemma {:induction false} AddressIsThere(fields: seq<Field>, field: Field, plan: Plan, indices: seq<nat>)
    requires InRange(indices, |plan.unified|) && plan.needsDocument && field.name != DOCUMENT
    requires forall i :: 0 <= i < |indices| && plan.unified[indices[i]].name != DOCUMENT ==>
      IndexOf(fields, plan.unified[indices[i]].name).Some?
    requires !IsProjected(field.name, plan.unified, indices) ==> field in fields
    ensures IndexOf(fields, field.name).Some?
  {
  }

  /** The rows of a chunk under the projected schema. */
  ghost predicate IsFinal(output: Batch, plan: Plan, ffBatch: Batch, scores: Option<seq<real>>, docs: Array)
    requires ValidBatch(ffBatch)
  {
    && ValidBatch(output) && output.rows == ffBatch.rows && output.fields == plan.projected
    && (forall c :: 0 <= c < |output.columns| ==>
          output.columns[c] ==
          if output.fields[c].name == DOCUMENT then docs else Expected(ffBatch, scores, output.fields[c].name))
  }

  lemma {:induction false} WithoutDocumentsIsFinal(batch: Batch, plan: Plan, ffBatch: Batch, scores: Option<seq<real>>,
                                canonical: seq<Field>, projection: Option<seq<nat>>, ff: seq<nat>)
    requires Planned(plan, canonical, projection, ff) && !plan.needsDocument
    requires ValidBatch(ffBatch) && Faithful(batch, ffBatch, scores)
    requires batch.fields == IntermediateFields(plan, Indices(canonical, projection))
    ensures IsFinal(batch, plan, ffBatch, scores, [])
  {
    var indices := Indices(canonical, projection);
    NothingLeftOut(plan.unified, indices, plan.documentIdx);
    forall i | 0 <= i < |indices|
      ensures plan.projected[i].name != DOCUMENT
    {
      assert indices[i] in indices;
      assert indices[i] < |canonical| ==> plan.projected[i] == canonical[indices[i]];
    }
  }

  lemma {:induction false} FinalScores(
      output: Batch, plan: Plan, ffBatch: Batch, scores: Option<seq<real>>, docs: Array)
    requires ValidBatch(ffBatch) && (scores.Some? ==> |scores.value| == ffBatch.rows)
    requires IsFinal(output, plan, ffBatch, scores, docs)
    ensures ScoresInPlace(output, scores)
  {
  }

  lemma {:induction false} AddressesAreKept(batch: Batch, ffBatch: Batch, plan: Plan, scores: Option<seq<real>>)
    requires IsChunk(ffBatch, plan) && Faithful(batch, ffBatch, scores)
    requires IndexOf(batch.fields, DOC_ID).Some? && IndexOf(batch.fields, SEGMENT_ORD).Some?
    requires IndexOf(ffBatch.fields, DOC_ID).Some? && IndexOf(ffBatch.fields, SEGMENT_ORD).Some?
    ensures HasAddresses(batch)
    ensures ColumnNamed(batch, DOC_ID) == ColumnNamed(ffBatch, DOC_ID)
    ensures ColumnNamed(batch, SEGMENT_ORD) == ColumnNamed(ffBatch, SEGMENT_ORD)
  {
    assert DOC_ID != SCORE && SEGMENT_ORD != SCORE;
  }

  lemma {:induction false} WithDocumentsIsFinal(
      output: Batch, batch: Batch, plan: Plan, ffBatch: Batch, scores: Option<seq<real>>,
                             docs: Array)
    requires ValidBatch(ffBatch) && Faithful(batch, ffBatch, scores) && HasColumns(batch, plan.projected)
    requires ValidBatch(output) && output.rows == batch.rows && Inserted(output, plan.projected, batch, docs)
    ensures IsFinal(output, plan, ffBatch, scores, docs)
  {
    forall c | 0 <= c < |output.columns| && output.fields[c].name != DOCUMENT
      ensures output.columns[c] == Expected(ffBatch, scores, output.fields[c].name)
    {
      var position := IndexOf(batch.fields, output.fields[c].name).value;
      assert batch.columns[position] == Expected(ffBatch, scores, batch.fields[position].name);
    }
  }

  /** The forwarding side of a planned scan that wants documents. */
  method InsertDocumentColumn(
      batch: Batch, ffBatch: Batch, plan: Plan, scores: Option<seq<real>>, fetch: Fetch,
      ghost canonical: seq<Field>, ghost projection: Option<seq<nat>>, ghost ff: seq<nat>)
    returns (r: Result<Batch, string>, ghost docs: Array)
    requires Planned(plan, canonical, projection, ff) && IsChunk(ffBatch, plan) && plan.needsDocument
    requires Faithful(batch, ffBatch, scores) && plan.projected != []
    requires scores.Some? ==> |scores.value| == ffBatch.rows
    requires batch.fields == IntermediateFields(plan, Indices(canonical, projection))
    requires IndexOf(ffBatch.fields, DOC_ID).Some? && IndexOf(ffBatch.fields, SEGMENT_ORD).Some?
    ensures r.Ok? <==> AllFetched(ColumnNamed(ffBatch, DOC_ID), ColumnNamed(ffBatch, SEGMENT_ORD), fetch)
    ensures r.Ok? ==> IsFinal(r.value, plan, ffBatch, scores, docs) && ScoresInPlace(r.value, scores)
    ensures r.Ok? ==> AreDocuments(docs, ColumnNamed(ffBatch, DOC_ID), ColumnNamed(ffBatch, SEGMENT_ORD), fetch)
  {
    IntermediateHasColumns(batch, plan, canonical, projection, ff);
    AddressesAreKept(batch, ffBatch, plan, scores);
    r, docs := FillDocumentColumn(batch, plan.projected, fetch);
    if r.Ok? {
      WithDocumentsIsFinal(r.value, batch, plan, ffBatch, scores, docs);
      FinalScores(r.value, plan, ffBatch, scores, docs);
    }
  }

  /**
   The way of one chunk through a planned scan. It arrives with exactly the projected columns, in order; it fails
   only when documents are wanted and one cannot be fetched.
  */
  method FinalBatch(ffBatch: Batch, plan: Plan, scores: Option<seq<real>>, fetch: Fetch,
                    ghost canonical: seq<Field>, projection: Option<seq<nat>>, ghost ff: seq<nat>)
    returns (r: Result<Batch, string>, ghost docs: Array)
    requires Planned(plan, canonical, projection, ff) && IsChunk(ffBatch, plan)
    requires scores.Some? ==> |scores.value| == ffBatch.rows
    ensures plan.needsDocument ==>
      IndexOf(ffBatch.fields, DOC_ID).Some? && IndexOf(ffBatch.fields, SEGMENT_ORD).Some?
    ensures r.Ok? <==>
            (plan.needsDocument ==>
            AllFetched(ColumnNamed(ffBatch, DOC_ID), ColumnNamed(ffBatch, SEGMENT_ORD), fetch))
    ensures r.Ok? ==> IsFinal(r.value, plan, ffBatch, scores, docs) && ScoresInPlace(r.value, scores)
    ensures r.Ok? && plan.needsDocument ==>
      AreDocuments(docs, ColumnNamed(ffBatch, DOC_ID), ColumnNamed(ffBatch, SEGMENT_ORD), fetch)
  {
    var indices := if projection.Some? then projection.value else AllIndices(|plan.unified|);
    assert indices == Indices(canonical, projection);
    PlanIsReadable(ffBatch, plan, canonical, projection, ff);
    docs := [];
    var built := BuildChunk(ffBatch, plan, indices, scores);
    var batch := built.value;
    if !plan.needsDocument {
      WithoutDocumentsIsFinal(batch, plan, ffBatch, scores, canonical, projection, ff);
      r := Ok(batch);
      return;
    }
    r, docs := InsertDocumentColumn(batch, ffBatch, plan, scores, fetch, canonical, projection, ff);
  }
}
