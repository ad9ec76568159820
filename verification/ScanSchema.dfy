/**
 The schema of a scan, as the planner and a remote worker derive it, and the assembly of output batches from it.

 A table's unified schema is its canonical fast-field schema followed by `_score` and `_document`. A scan reads
 only the fast fields it needs, attaches scores, and looks documents up by the addresses in `_segment_ord` and
 `_doc_id`.
*/
module ScanSchema {
  import opened Prelude
  import opened Expressions
  import opened TypeCoercion

  const SCORE := "_score"
  const DOCUMENT := "_document"
  const SCORE_FIELD := Field(SCORE, DataType.Float32, true, None)
  const DOCUMENT_FIELD := Field(DOCUMENT, DataType.Utf8, true, None)

  datatype Plan = Plan(
    unified: seq<Field>, projected: seq<Field>, ffProjected: seq<Field>, projection: Option<seq<nat>>,
    scoreIdx: nat, documentIdx: nat, needsScore: bool, needsDocument: bool)

  function Unified(canonical: seq<Field>): seq<Field> {
    canonical + [SCORE_FIELD, DOCUMENT_FIELD]
  }

  function AllIndices(n: nat): (indices: seq<nat>)
    ensures |indices| == n && forall i :: 0 <= i < n ==> indices[i] == i
  {
    seq(n, i => i)
  }

  /** Without a projection every unified column is wanted. */
  function Indices(canonical: seq<Field>, projection: Option<seq<nat>>): seq<nat> {
    if projection.Some? then projection.value else AllIndices(|canonical| + 2)
  }

  ghost predicate InRange(indices: seq<nat>, n: nat) {
    forall i :: 0 <= i < |indices| ==> indices[i] < n
  }

  function Pick(fields: seq<Field>, indices: seq<nat>): (picked: seq<Field>)
    requires InRange(indices, |fields|)
    ensures |picked| == |indices| && forall i :: 0 <= i < |picked| ==> picked[i] == fields[indices[i]]
  {
    seq(|indices|, i requires 0 <= i < |indices| => fields[indices[i]])
  }

  /** Position of the first field with that name. */
  function IndexOf(fields: seq<Field>, name: string): (position: Option<nat>)
    ensures position.None? <==> forall i :: 0 <= i < |fields| ==> fields[i].name != name
    ensures position.Some? ==> position.value < |fields| && fields[position.value].name == name
  {
    if fields == [] then None
    else if fields[0].name == name then Some(0)
    else
      var rest := IndexOf(fields[1..], name);
      if rest.Some? then Some(rest.value + 1)
      else
        assert forall i :: 1 <= i < |fields| ==> fields[i] == fields[1..][i - 1];
        None
  }

  // ---------------------------------------------------------------------------
  // What a scan schema must be
  // ---------------------------------------------------------------------------

  ghost function Asked(indices: seq<nat>, fields: nat): set<nat> {
    set i | 0 <= i < |indices| && indices[i] < fields :: indices[i]
  }

  /** The address columns when documents are wanted, and never no column at all. */
  ghost function WithRequired(asked: set<nat>, needsDocument: bool, docId: nat, segmentOrd: nat): set<nat> {
    if needsDocument then asked + {docId, segmentOrd}
    else if asked == {} then {docId}
    else asked
  }

  ghost predicate IsPlan(plan: Plan, canonical: seq<Field>, projection: Option<seq<nat>>, ff: seq<nat>)
    requires IndexOf(canonical, DOC_ID).Some? && IndexOf(canonical, SEGMENT_ORD).Some?
    requires InRange(Indices(canonical, projection), |canonical| + 2)
  {
    var indices := Indices(canonical, projection);
    && Increasing(ff)
    && InRange(ff, |canonical|)
    && Elements(ff) == WithRequired(
      Asked(indices, |canonical|), |canonical| + 1 in indices,
      IndexOf(canonical, DOC_ID).value, IndexOf(canonical, SEGMENT_ORD).value)
    && plan == Plan(
      Unified(canonical), Pick(Unified(canonical), indices), Pick(canonical, ff), projection,
      |canonical|, |canonical| + 1, |canonical| in indices, |canonical| + 1 in indices)
  }

  /** Increasing sequences with the same elements are the same. */
  lemma {:induction false} IncreasingIsUnique(a: seq<nat>, b: seq<nat>)
    requires Increasing(a) && Increasing(b) && Elements(a) == Elements(b)
    ensures a == b
  {
    NoElements(a);
    NoElements(b);
    if a != [] {
      LastIsLargest(a, b);
      LastIsLargest(b, a);
      var last := a[|a| - 1];
      ElementsOfInit(a);
      ElementsOfInit(b);
      IncreasingIsUnique(a[..|a| - 1], b[..|b| - 1]);
      assert a == a[..|a| - 1] + [last] && b == b[..|b| - 1] + [last];
    }
  }

  lemma {:induction false} NoElements(s: seq<nat>)
    ensures s == [] <==> Elements(s) == {}
  {
    if s != [] {
      assert s[0] in Elements(s);
    }
  }

  lemma {:induction false} LastIsLargest(a: seq<nat>, b: seq<nat>)
    requires Increasing(a) && a != [] && b != [] && Elements(b) <= Elements(a)
    ensures b[|b| - 1] <= a[|a| - 1]
  {
    assert b[|b| - 1] in Elements(a);
  }

  lemma {:induction false} ElementsOfInit(a: seq<nat>)
    requires Increasing(a) && a != []
    ensures Increasing(a[..|a| - 1]) && Elements(a[..|a| - 1]) == Elements(a) - {a[|a| - 1]}
  {
    var init := a[..|a| - 1];
    assert forall i :: 0 <= i < |init| ==> init[i] == a[i] && a[i] < a[|a| - 1];
    assert forall x :: x in Elements(a) && x != a[|a| - 1] ==> x in Elements(init);
  }

  // ---------------------------------------------------------------------------
  // Sorting and deduplication
  // ---------------------------------------------------------------------------

  ghost predicate NonDecreasing(s: seq<nat>) {
    forall i, j :: 0 <= i < j < |s| ==> s[i] <= s[j]
  }

  function Insert(s: seq<nat>, x: nat): (r: seq<nat>)
    requires NonDecreasing(s)
    ensures NonDecreasing(r) && Elements(r) == Elements(s) + {x}
  {
    if s == [] then
      ElementsCons(x, s);
      [x] + s
    else if x <= s[0] then
      InsertedFirst(s, x);
      [x] + s
    else
      var rest := Insert(s[1..], x);
      InsertedLater(s, x, rest);
      [s[0]] + rest
  }

  lemma {:induction false} ElementsCons(x: nat, s: seq<nat>)
    ensures Elements([x] + s) == {x} + Elements(s)
  {
    var longer := [x] + s;
    assert longer[0] == x;
    assert forall i :: 0 <= i < |s| ==> longer[i + 1] == s[i];
  }

  lemma {:induction false} InsertedFirst(s: seq<nat>, x: nat)
    requires NonDecreasing(s) && s != [] && x <= s[0]
    ensures NonDecreasing([x] + s) && Elements([x] + s) == Elements(s) + {x}
  {
    ElementsCons(x, s);
  }

  lemma {:induction false} InsertedLater(s: seq<nat>, x: nat, rest: seq<nat>)
    requires NonDecreasing(s) && s != [] && x > s[0]
    requires NonDecreasing(rest) && Elements(rest) == Elements(s[1..]) + {x}
    ensures NonDecreasing([s[0]] + rest) && Elements([s[0]] + rest) == Elements(s) + {x}
  {
    ElementsCons(s[0], rest);
    ElementsCons(s[0], s[1..]);
    assert s == [s[0]] + s[1..];
    forall i | 0 <= i < |rest|
      ensures s[0] <= rest[i]
    {
      assert rest[i] in Elements(rest);
    }
  }

  function Sorted(s: seq<nat>): (r: seq<nat>)
    ensures NonDecreasing(r) && Elements(r) == Elements(s)
  {
    if s == [] then []
    else
      ElementsCons(s[0], s[1..]);
      assert s == [s[0]] + s[1..];
      Insert(Sorted(s[1..]), s[0])
  }

  /** Drops repeats of neighbours. */
  function Dedup(s: seq<nat>): (r: seq<nat>)
    requires NonDecreasing(s)
    ensures Increasing(r) && Elements(r) == Elements(s)
  {
    if |s| <= 1 then s
    else
      var rest := Dedup(s[1..]);
      ElementsCons(s[0], s[1..]);
      assert s == [s[0]] + s[1..];
      if s[0] == s[1] then
        assert s[1..][0] in Elements(s[1..]);
        rest
      else
        DedupKeepsFirst(s, rest);
        [s[0]] + rest
  }

  lemma {:induction false} DedupKeepsFirst(s: seq<nat>, rest: seq<nat>)
    requires NonDecreasing(s) && |s| > 1 && s[0] != s[1]
    requires Increasing(rest) && Elements(rest) == Elements(s[1..])
    ensures Increasing([s[0]] + rest) && Elements([s[0]] + rest) == Elements(s)
  {
    ElementsCons(s[0], rest);
    ElementsCons(s[0], s[1..]);
    assert s == [s[0]] + s[1..];
    forall i | 0 <= i < |rest|
      ensures s[0] < rest[i]
    {
      assert rest[i] in Elements(s[1..]);
    }
  }

  lemma {:induction false} ElementsAppend(s: seq<nat>, x: nat)
    ensures Elements(s + [x]) == Elements(s) + {x}
  {
    var longer := s + [x];
    assert longer[|s|] == x;
    assert forall i :: 0 <= i < |s| ==> longer[i] == s[i];
  }

  lemma {:induction false} AskedSnoc(indices: seq<nat>, x: nat, fields: nat)
    ensures Asked(indices + [x], fields) == Asked(indices, fields) + (if x < fields then {x} else {})
  {
    var longer := indices + [x];
    assert longer[|indices|] == x;
    assert forall i :: 0 <= i < |indices| ==> longer[i] == indices[i];
  }

  lemma {:induction false} ElementsInRange(s: seq<nat>, n: nat)
    requires forall x :: x in Elements(s) ==> x < n
    ensures InRange(s, n)
  {
    forall i | 0 <= i < |s|
      ensures s[i] < n
    {
      assert s[i] in Elements(s);
    }
  }

  // ---------------------------------------------------------------------------
  // The planner
  // ---------------------------------------------------------------------------

  method AddRequiredFastFieldIndices(ffIndices: seq<nat>, fields: seq<Field>, needsDocument: bool)
    returns (r: Result<seq<nat>, string>)
    requires Increasing(ffIndices)
    ensures r.Err? <==> IndexOf(fields, DOC_ID).None? || IndexOf(fields, SEGMENT_ORD).None?
    ensures r.Ok? ==> Increasing(r.value)
    ensures r.Ok? ==> Elements(r.value) == WithRequired(
      Elements(ffIndices), needsDocument, IndexOf(fields, DOC_ID).value, IndexOf(fields, SEGMENT_ORD).value)
  {
    var docId, segmentOrd := IndexOf(fields, DOC_ID), IndexOf(fields, SEGMENT_ORD);
    if docId.None? {
      return Err("fast field schema missing required _doc_id column");
    }
    if segmentOrd.None? {
      return Err("fast field schema missing required _segment_ord column");
    }
    var indices := PushRequired(ffIndices, needsDocument, docId.value, segmentOrd.value);
    return Ok(indices);
  }

  method PushRequired(ffIndices: seq<nat>, needsDocument: bool, docId: nat, segmentOrd: nat) returns (indices: seq<nat>)
    ensures Increasing(indices)
    ensures Elements(indices) == WithRequired(Elements(ffIndices), needsDocument, docId, segmentOrd)
  {
    indices := ffIndices;
    NoElements(ffIndices);
    if indices == [] || (needsDocument && docId !in indices) {
      ElementsAppend(indices, docId);
      indices := indices + [docId];
    }
    if needsDocument && segmentOrd !in indices {
      ElementsAppend(indices, segmentOrd);
      indices := indices + [segmentOrd];
    }
    indices := Dedup(Sorted(indices));
  }

  /** The two trailing columns set flags; every other index is one of a fast field. */
  method SplitIndices(indices: seq<nat>, scoreIdx: nat, documentIdx: nat)
    returns (needsScore: bool, needsDocument: bool, ffIndices: seq<nat>)
    requires documentIdx == scoreIdx + 1 && InRange(indices, documentIdx + 1)
    ensures needsScore == (scoreIdx in indices) && needsDocument == (documentIdx in indices)
    ensures Elements(ffIndices) == Asked(indices, scoreIdx)
  {
    needsScore, needsDocument, ffIndices := false, false, [];
    for n := 0 to |indices|
      invariant needsScore == (scoreIdx in indices[..n]) && needsDocument == (documentIdx in indices[..n])
      invariant Elements(ffIndices) == Asked(indices[..n], scoreIdx)
    {
      assert indices[..n + 1] == indices[..n] + [indices[n]];
      AskedSnoc(indices[..n], indices[n], scoreIdx);
      if indices[n] == scoreIdx {
        needsScore := true;
      } else if indices[n] == documentIdx {
        needsDocument := true;
      } else {
        ElementsAppend(ffIndices, indices[n]);
        ffIndices := ffIndices + [indices[n]];
      }
    }
    assert indices[..|indices|] == indices;
  }

  /** The table provider's plan: the unified schema and the positions of its last two columns are its fields. */
  method PlanScanSchema(canonical: seq<Field>, projection: Option<seq<nat>>)
    returns (r: Result<Plan, string>, ghost ff: seq<nat>)
    requires InRange(Indices(canonical, projection), |canonical| + 2)
    ensures r.Err? <==> IndexOf(canonical, DOC_ID).None? || IndexOf(canonical, SEGMENT_ORD).None?
    ensures r.Ok? ==> IsPlan(r.value, canonical, projection, ff)
  {
    var unified := Unified(canonical);
    var scoreIdx, documentIdx := |canonical|, |canonical| + 1;
    var indices := Indices(canonical, projection);
    var needsScore, needsDocument, ffIndices := SplitIndices(indices, scoreIdx, documentIdx);
    ff := [];
    var needed :- AddRequiredFastFieldIndices(Dedup(Sorted(ffIndices)), canonical, needsDocument);
    ff := needed;
    ElementsInRange(needed, |canonical|);
    r := Ok(Plan(
      unified, Pick(unified, indices), Pick(canonical, needed), projection, scoreIdx, documentIdx,
      needsScore, needsDocument));
  }

  // ---------------------------------------------------------------------------
  // The worker
  // ---------------------------------------------------------------------------

  /** A worker only has the canonical schema and the projection that came with the plan. */
  method BuildTantivyTableScanSchema(canonical: seq<Field>, projection: Option<seq<nat>>)
    returns (r: Result<Plan, string>, ghost ff: seq<nat>)
    requires InRange(Indices(canonical, projection), |canonical| + 2)
    ensures r.Err? <==> IndexOf(canonical, DOC_ID).None? || IndexOf(canonical, SEGMENT_ORD).None?
    ensures r.Ok? ==> IsPlan(r.value, canonical, projection, ff)
  {
    var unified := Unified(canonical);
    var indices := Indices(canonical, projection);
    var needsScore, needsDocument, ffIndices := SplitIndices(indices, |canonical|, |canonical| + 1);
    ff := [];
    var docId, segmentOrd := IndexOf(canonical, DOC_ID), IndexOf(canonical, SEGMENT_ORD);
    if docId.None? {
      r := Err("canonical fast field schema missing required _doc_id column");
      return;
    }
    if segmentOrd.None? {
      r := Err("canonical fast field schema missing required _segment_ord column");
      return;
    }
    var needed := PushRequired(Dedup(Sorted(ffIndices)), needsDocument, docId.value, segmentOrd.value);
    ElementsInRange(needed, |canonical|);
    ff := needed;
    r := Ok(Plan(
      unified, Pick(unified, indices), Pick(canonical, needed), projection, |canonical|, |canonical| + 1,
      needsScore, needsDocument));
  }

  // ---------------------------------------------------------------------------
  // Agreement
  // ---------------------------------------------------------------------------

  /** The canonical schema, read back from a scan schema. */
  function CanonicalFastFieldSchema(plan: Plan): seq<Field>
    requires plan.scoreIdx <= |plan.unified|
  {
    plan.unified[..plan.scoreIdx]
  }

  /** A scan schema can be read back, and canonical schema and projection leave no choice in it. */
  lemma {:induction false} PlanIsDetermined(a: Plan, b: Plan, canonical: seq<Field>, projection: Option<seq<nat>>,
                         ffA: seq<nat>, ffB: seq<nat>)
    requires IndexOf(canonical, DOC_ID).Some? && IndexOf(canonical, SEGMENT_ORD).Some?
    requires InRange(Indices(canonical, projection), |canonical| + 2)
    requires IsPlan(a, canonical, projection, ffA) && IsPlan(b, canonical, projection, ffB)
    ensures a == b
    ensures CanonicalFastFieldSchema(a) == canonical
  {
    IncreasingIsUnique(ffA, ffB);
  }

  /** The column is wanted: every column is without a projection. */
  predicate IsWanted(i: nat, projection: Option<seq<nat>>) {
    projection.Some? ==> i in projection.value
  }

  /** The column is read: it is wanted, or an address that documents need, or read for want of another column. */
  ghost predicate IsRead(i: nat, canonical: seq<Field>, projection: Option<seq<nat>>) {
    || IsWanted(i, projection)
    || (IsWanted(|canonical| + 1, projection) &&
        (Some(i) == IndexOf(canonical, DOC_ID) || Some(i) == IndexOf(canonical, SEGMENT_ORD)))
    || (Some(i) == IndexOf(canonical, DOC_ID) && NothingIsWanted(|canonical|, projection))
  }

  ghost predicate NothingIsWanted(n: nat, projection: Option<seq<nat>>) {
    forall k :: 0 <= k < n ==> !IsWanted(k, projection)
  }

  lemma {:induction false} IndicesAreWanted(canonical: seq<Field>, projection: Option<seq<nat>>, i: nat)
    requires i < |canonical| + 2
    ensures i in Indices(canonical, projection) <==> IsWanted(i, projection)
  {
    assert projection.None? ==> Indices(canonical, projection)[i] == i;
  }

  lemma {:induction false} PickAll(fields: seq<Field>)
    ensures Pick(fields, AllIndices(|fields|)) == fields
  {
  }

  /** A scan schema in words of the projection: what is shown, in its order, and what is attached. */
  lemma {:induction false} PlanShowsTheProjection(
      plan: Plan, canonical: seq<Field>, projection: Option<seq<nat>>, ff: seq<nat>)
    requires IndexOf(canonical, DOC_ID).Some? && IndexOf(canonical, SEGMENT_ORD).Some?
    requires InRange(Indices(canonical, projection), |canonical| + 2)
    requires IsPlan(plan, canonical, projection, ff)
    ensures plan.unified ==
            canonical + [Field("_score", DataType.Float32, true, None), Field("_document", DataType.Utf8, true, None)]
    ensures projection.None? ==> plan.projected == plan.unified
    ensures projection.Some? ==>
      (|plan.projected| == |projection.value| &&
       forall i :: 0 <= i < |plan.projected| ==>
         projection.value[i] < |plan.unified| && plan.projected[i] == plan.unified[projection.value[i]])
    ensures plan.needsScore <==> IsWanted(|canonical|, projection)
    ensures plan.needsDocument <==> IsWanted(|canonical| + 1, projection)
  {
    IndicesAreWanted(canonical, projection, |canonical|);
    IndicesAreWanted(canonical, projection, |canonical| + 1);
    PickAll(plan.unified);
  }

  lemma {:induction false} AskedAreWanted(canonical: seq<Field>, projection: Option<seq<nat>>, i: nat)
    ensures i in Asked(Indices(canonical, projection), |canonical|) <==> i < |canonical| && IsWanted(i, projection)
  {
    if i < |canonical| {
      IndicesAreWanted(canonical, projection, i);
    }
  }

  lemma {:induction false} NothingIsAsked(canonical: seq<Field>, projection: Option<seq<nat>>)
    ensures Asked(Indices(canonical, projection), |canonical|) == {} <==>
            NothingIsWanted(|canonical|, projection)
  {
    var asked := Asked(Indices(canonical, projection), |canonical|);
    forall k | 0 <= k < |canonical|
      ensures k in asked <==> IsWanted(k, projection)
    {
      AskedAreWanted(canonical, projection, k);
    }
    assert forall k :: k in asked ==> k < |canonical|;
  }

  lemma {:induction false} RequiredMembers(
      read: set<nat>, asked: set<nat>, needsDocument: bool, docId: nat, segmentOrd: nat, i: nat)
    requires read == WithRequired(asked, needsDocument, docId, segmentOrd)
    ensures i in read <==>
            i in asked || (needsDocument && (i == docId || i == segmentOrd)) || (asked == {} && i == docId)
  {
  }

  lemma {:induction false} InElements(s: seq<nat>, i: nat)
    ensures i in s <==> i in Elements(s)
  {
  }

  lemma {:induction false} RequiredAreRead(
      ff: seq<nat>, canonical: seq<Field>, projection: Option<seq<nat>>, needsDocument: bool, i: nat)
    requires IndexOf(canonical, DOC_ID).Some? && IndexOf(canonical, SEGMENT_ORD).Some? && i < |canonical|
    requires needsDocument == (|canonical| + 1 in Indices(canonical, projection))
    requires Elements(ff) == WithRequired(
      Asked(Indices(canonical, projection), |canonical|), needsDocument,
      IndexOf(canonical, DOC_ID).value, IndexOf(canonical, SEGMENT_ORD).value)
    ensures i in ff <==> IsRead(i, canonical, projection)
  {
    IndicesAreWanted(canonical, projection, |canonical| + 1);
    AskedAreWanted(canonical, projection, i);
    NothingIsAsked(canonical, projection);
    RequiredMembers(
      Elements(ff), Asked(Indices(canonical, projection), |canonical|), needsDocument,
      IndexOf(canonical, DOC_ID).value, IndexOf(canonical, SEGMENT_ORD).value, i);
    InElements(ff, i);
  }

  /** The fast fields read are those that are wanted, or needed as addresses, or for want of any other. */
  lemma {:induction false} PlanReadsWhatIsNeeded(
      plan: Plan, canonical: seq<Field>, projection: Option<seq<nat>>, ff: seq<nat>, i: nat)
    requires IndexOf(canonical, DOC_ID).Some? && IndexOf(canonical, SEGMENT_ORD).Some?
    requires InRange(Indices(canonical, projection), |canonical| + 2)
    requires IsPlan(plan, canonical, projection, ff) && i < |canonical|
    ensures i in ff <==> IsRead(i, canonical, projection)
  {
    RequiredAreRead(ff, canonical, projection, plan.needsDocument, i);
  }

  /** The fast fields a scan reads, by name: the columns a projection asks for, and the addresses for documents. */
  lemma {:induction false} EveryColumnIsRead(
      plan: Plan, canonical: seq<Field>, projection: Option<seq<nat>>, ff: seq<nat>)
    requires IndexOf(canonical, DOC_ID).Some? && IndexOf(canonical, SEGMENT_ORD).Some?
    requires InRange(Indices(canonical, projection), |canonical| + 2)
    requires IsPlan(plan, canonical, projection, ff)
    ensures forall n :: 0 <= n < |Indices(canonical, projection)| && Indices(canonical, projection)[n] < |canonical| ==>
      IndexOf(plan.ffProjected, canonical[Indices(canonical, projection)[n]].name).Some?
    ensures plan.needsDocument ==>
      IndexOf(plan.ffProjected, DOC_ID).Some? && IndexOf(plan.ffProjected, SEGMENT_ORD).Some?
    ensures plan.ffProjected != []
  {
    var indices := Indices(canonical, projection);
    forall n | 0 <= n < |indices| && indices[n] < |canonical|
      ensures IndexOf(plan.ffProjected, canonical[indices[n]].name).Some?
    {
      assert indices[n] in Asked(indices, |canonical|);
      ReadUnderItsName(canonical, ff, indices[n]);
    }
    var docId, segmentOrd := IndexOf(canonical, DOC_ID).value, IndexOf(canonical, SEGMENT_ORD).value;
    if plan.needsDocument {
      ReadUnderItsName(canonical, ff, docId);
      ReadUnderItsName(canonical, ff, segmentOrd);
    }
    NoElements(ff);
  }

  lemma {:induction false} ReadUnderItsName(canonical: seq<Field>, ff: seq<nat>, i: nat)
    requires InRange(ff, |canonical|) && i in Elements(ff)
    ensures i < |canonical| && IndexOf(Pick(canonical, ff), canonical[i].name).Some?
  {
    var k :| 0 <= k < |ff| && ff[k] == i;
    assert Pick(canonical, ff)[k].name == canonical[i].name;
  }
}
