/** The full-text filters a scan answers exactly, and the query that combines everything pushed down. */
module FullText {
  import opened Prelude
  import opened Expressions
  import opened IndexQueries

  type Pair = (string, string)

  datatype FullTextFilter = FullTextFilter(call: Pair, negated: bool)

  function ExtractFullTextFilter(expr: Expr): Option<FullTextFilter> {
    match ExtractFullTextCall(expr)
    case Some(call) => Some(FullTextFilter(call, false))
    case None =>
      if expr.Not? then
        var call :- ExtractFullTextCall(expr.inner);
        Some(FullTextFilter(call, true))
      else None
  }

  // ---------------------------------------------------------------------------
  // Disjunctions
  // ---------------------------------------------------------------------------

  /** The calls of an OR tree of full_text calls, left to right; None if anything else occurs in it. */
  function Disjuncts(expr: Expr): Option<seq<Pair>> {
    match expr
    case BinaryExpr(left, Or, right) =>
      var l :- Disjuncts(left);
      var r :- Disjuncts(right);
      Some(l + r)
    case _ =>
      var call :- ExtractFullTextCall(expr);
      Some([call])
  }

  /** Pushes the calls onto the group while recursing; a failure leaves what was pushed before it. */
  method CollectFullTextDisjunction(expr: Expr, group: seq<Pair>) returns (complete: bool, grown: seq<Pair>)
    ensures complete <==> Disjuncts(expr).Some?
    ensures complete ==> grown == group + Disjuncts(expr).value
    ensures group <= grown
    decreases expr
  {
    grown := group;
    var call := ExtractFullTextCall(expr);
    if call.Some? {
      grown := grown + [call.value];
      return true, grown;
    }
    if expr.BinaryExpr? && expr.op.Or? {
      complete, grown := CollectFullTextDisjunction(expr.left, grown);
      if complete {
        complete, grown := CollectFullTextDisjunction(expr.right, grown);
      }
      return;
    }
    complete := false;
  }

  method ExtractFullTextOrGroup(expr: Expr) returns (group: Option<seq<Pair>>)
    ensures group == Disjuncts(expr)
  {
    var complete, calls := CollectFullTextDisjunction(expr, []);
    assert complete ==> calls == Disjuncts(expr).value;
    group := if complete then Some(calls) else None;
  }

  ghost predicate AnyHit(group: seq<Pair>, row: Row) {
    exists i :: 0 <= i < |group| && group[i] in row.hits
  }

  /** Flattening an OR tree keeps its meaning, and that meaning is never UNKNOWN. */
  lemma {:induction false} DisjunctsMeaning(expr: Expr, row: Row)
    requires Disjuncts(expr).Some?
    ensures Eval(expr, row) == FromBool(AnyHit(Disjuncts(expr).value, row))
  {
    if expr.BinaryExpr? && expr.op.Or? {
      DisjunctsMeaning(expr.left, row);
      DisjunctsMeaning(expr.right, row);
      var l, r := Disjuncts(expr.left).value, Disjuncts(expr.right).value;
      forall i | 0 <= i < |r| ensures (l + r)[|l| + i] == r[i] {
      }
      if AnyHit(l + r, row) {
        var i :| 0 <= i < |l + r| && (l + r)[i] in row.hits;
        assert if i < |l| then l[i] in row.hits else r[i - |l|] in row.hits;
      }
      if AnyHit(l, row) {
        var i :| 0 <= i < |l| && l[i] in row.hits;
        assert (l + r)[i] in row.hits;
      }
      if AnyHit(r, row) {
        var i :| 0 <= i < |r| && r[i] in row.hits;
        assert (l + r)[|l| + i] in row.hits;
      }
    } else {
      var call := ExtractFullTextCall(expr).value;
      assert Disjuncts(expr).value[0] == call;
    }
  }

  lemma {:induction false} FullTextFilterMeaning(expr: Expr, row: Row)
    requires ExtractFullTextFilter(expr).Some?
    ensures var f := ExtractFullTextFilter(expr).value;
      Eval(expr, row) == FromBool((f.call in row.hits) != f.negated)
  {
  }

  /** Drops the calls on fields that no split has. */
  method ExistingFullTextGroup(group: seq<Pair>, splits: seq<Split>) returns (kept: seq<Pair>)
    ensures kept == KeptCalls(group, splits)
  {
    kept := [];
    for n := 0 to |group|
      invariant KeptCalls(group, splits) == kept + KeptCalls(group[n..], splits)
    {
      assert group[n..] == [group[n]] + group[n + 1..];
      if FieldExistsSomewhere(group[n].0, splits) {
        kept := kept + [group[n]];
      }
    }
  }

  predicate FieldExistsSomewhere(field: string, splits: seq<Split>) {
    exists i :: 0 <= i < |splits| && field in splits[i].schema
  }

  function KeptCalls(group: seq<Pair>, splits: seq<Split>): seq<Pair> {
    if group == [] then []
    else (if FieldExistsSomewhere(group[0].0, splits) then [group[0]] else []) + KeptCalls(group[1..], splits)
  }

  lemma {:induction false} KeptCallsMembers(group: seq<Pair>, splits: seq<Split>, call: Pair)
    ensures call in KeptCalls(group, splits) <==> call in group && FieldExistsSomewhere(call.0, splits)
  {
    if group == [] {
    } else {
      assert group == [group[0]] + group[1..];
      KeptCallsMembers(group[1..], splits, call);
    }
  }

  /** Dropping calls on fields absent from every split changes no row's answer. */
  lemma {:induction false} KeptCallsMeaning(group: seq<Pair>, splits: seq<Split>, i: nat, doc: Doc)
    requires i < |splits| && ValidDoc(splits[i].schema, doc)
    ensures AnyHit(KeptCalls(group, splits), RowOf(doc)) <==> AnyHit(group, RowOf(doc))
  {
    var kept := KeptCalls(group, splits);
    if AnyHit(kept, RowOf(doc)) {
      var j :| 0 <= j < |kept| && kept[j] in doc.hits;
      KeptCallsMembers(group, splits, kept[j]);
    }
    if AnyHit(group, RowOf(doc)) {
      var j :| 0 <= j < |group| && group[j] in doc.hits;
      KeptCallsMembers(group, splits, group[j]);
      assert group[j].0 in splits[i].schema;
      assert group[j] in kept;
    }
  }

  // ---------------------------------------------------------------------------
  // The combined query
  // ---------------------------------------------------------------------------

  /** None when the split has no such field; an error when the split's parser rejects the text. */
  function ParseRawQuery(split: Split, raw: Pair): Result<Option<Query>, Pair> {
    if raw.0 !in split.schema then Ok(None)
    else if raw in split.unparsable then Err(raw)
    else Ok(Some(ParsedQuery(raw.0, raw.1)))
  }

  predicate Rejected(split: Split, raw: Pair) {
    raw.0 in split.schema && raw in split.unparsable
  }

  predicate AnyRejected(split: Split, raws: seq<Pair>) {
    exists i :: 0 <= i < |raws| && Rejected(split, raws[i])
  }

  /** A positive call is rejected before any positive call on a field the split does not have. */
  predicate RejectedBeforeMissing(split: Split, raws: seq<Pair>) {
    raws != [] && (Rejected(split, raws[0]) || (raws[0].0 in split.schema && RejectedBeforeMissing(split, raws[1..])))
  }

  /** When building the combined query fails: a call on a missing positive field answers before later parsing. */
  predicate ParsingFails(split: Split, raws: seq<Pair>, nots: seq<Pair>, groups: seq<seq<Pair>>) {
    || RejectedBeforeMissing(split, raws)
    || ((forall i :: 0 <= i < |raws| ==> raws[i].0 in split.schema)
        && (AnyRejected(split, nots) || exists i :: 0 <= i < |groups| && AnyRejected(split, groups[i])))
  }

  /** The conjunction of the pushed full-text filters. */
  ghost predicate FullTextMeaning(raws: seq<Pair>, nots: seq<Pair>, groups: seq<seq<Pair>>, row: Row) {
    && (forall i :: 0 <= i < |raws| ==> raws[i] in row.hits)
    && (forall i :: 0 <= i < |nots| ==> nots[i] !in row.hits)
    && (forall i :: 0 <= i < |groups| ==> AnyHit(groups[i], row))
  }

  ghost predicate AllMatch(queries: seq<Query>, schema: Schema, doc: Doc) {
    forall i :: 0 <= i < |queries| ==> Matches(queries[i], schema, doc)
  }

  ghost predicate NoneMatch(queries: seq<Query>, schema: Schema, doc: Doc) {
    forall i :: 0 <= i < |queries| ==> !Matches(queries[i], schema, doc)
  }

  lemma {:induction false} AllMatchSnoc(queries: seq<Query>, q: Query, schema: Schema, doc: Doc)
    ensures AllMatch(queries + [q], schema, doc) <==> AllMatch(queries, schema, doc) && Matches(q, schema, doc)
  {
    assert (queries + [q])[|queries|] == q;
    assert forall i :: 0 <= i < |queries| ==> (queries + [q])[i] == queries[i];
  }

  lemma {:induction false} NoneMatchSnoc(queries: seq<Query>, q: Query, schema: Schema, doc: Doc)
    ensures NoneMatch(queries + [q], schema, doc) <==> NoneMatch(queries, schema, doc) && !Matches(q, schema, doc)
  {
    assert (queries + [q])[|queries|] == q;
    assert forall i :: 0 <= i < |queries| ==> (queries + [q])[i] == queries[i];
  }

  lemma {:induction false} RejectedBeforeMissingAt(split: Split, raws: seq<Pair>, n: nat)
    requires n < |raws| && forall i :: 0 <= i < n ==> raws[i].0 in split.schema && !Rejected(split, raws[i])
    ensures RejectedBeforeMissing(split, raws) == RejectedBeforeMissing(split, raws[n..])
  {
    if n > 0 {
      RejectedBeforeMissingAt(split, raws[1..], n - 1);
      assert raws[1..][n - 1..] == raws[n..];
    }
  }

  lemma {:induction false} NothingRejected(split: Split, raws: seq<Pair>)
    requires forall i :: 0 <= i < |raws| ==> raws[i].0 in split.schema && !Rejected(split, raws[i])
    ensures !RejectedBeforeMissing(split, raws)
  {
    if raws != [] {
      NothingRejected(split, raws[1..]);
    }
  }

  /** The queries are the parses of the group's calls on fields of the split. */
  ghost predicate AreParses(queries: seq<Query>, group: seq<Pair>, schema: Schema) {
    && (forall i :: 0 <= i < |queries| ==> queries[i].ParsedQuery? && (queries[i].field, queries[i].text) in group)
    && (forall i :: 0 <= i < |group| && group[i].0 in schema ==> ParsedQuery(group[i].0, group[i].1) in queries)
  }

  lemma {:induction false} ParsesMeaning(queries: seq<Query>, group: seq<Pair>, schema: Schema, doc: Doc)
    requires AreParses(queries, group, schema) && ValidDoc(schema, doc)
    ensures Matches(Union(queries), schema, doc) <==> AnyHit(group, RowOf(doc))
  {
    if Matches(Union(queries), schema, doc) {
      var i :| 0 <= i < |queries| && Matches(queries[i], schema, doc);
      assert (queries[i].field, queries[i].text) in group;
    }
    if AnyHit(group, RowOf(doc)) {
      var i :| 0 <= i < |group| && group[i] in doc.hits;
      assert ParsedQuery(group[i].0, group[i].1) in queries;
      var k :| 0 <= k < |queries| && queries[k] == ParsedQuery(group[i].0, group[i].1);
      assert Matches(queries[k], schema, doc);
    }
  }

  /** The disjunction of one group: calls on missing fields fall out, and an empty group matches nothing. */
  method BuildGroupQuery(split: Split, group: seq<Pair>) returns (r: Result<Query, Pair>)
    ensures r.Err? <==> AnyRejected(split, group)
    ensures r.Ok? ==> forall doc :: ValidDoc(split.schema, doc) ==>
      (Matches(r.value, split.schema, doc) <==> AnyHit(group, RowOf(doc)))
  {
    var disjuncts: seq<Query> := [];
    for n := 0 to |group|
      invariant forall i :: 0 <= i < n ==> !Rejected(split, group[i])
      invariant AreParses(disjuncts, group[..n], split.schema)
    {
      var parsed := ParseRawQuery(split, group[n]);
      if parsed.Err? {
        return Err(parsed.error);
      }
      if parsed.value.Some? {
        disjuncts := disjuncts + [parsed.value.value];
      }
    }
    assert group[..|group|] == group;
    var q := if |disjuncts| == 0 then EmptyQuery else if |disjuncts| == 1 then disjuncts[0] else Union(disjuncts);
    forall doc | ValidDoc(split.schema, doc)
      ensures Matches(q, split.schema, doc) <==> AnyHit(group, RowOf(doc))
    {
      ParsesMeaning(disjuncts, group, split.schema, doc);
      assert Matches(q, split.schema, doc) <==> Matches(Union(disjuncts), split.schema, doc);
    }
    return Ok(q);
  }

  /** The meaning of the clauses collected so far. */
  ghost predicate ClausesMean(
    queries: seq<Query>, notQueries: seq<Query>, pre: Option<Query>,
    raws: seq<Pair>, nots: seq<Pair>, groups: seq<seq<Pair>>, schema: Schema)
  {
    forall doc :: ValidDoc(schema, doc) ==>
      (AllMatch(queries, schema, doc) && NoneMatch(notQueries, schema, doc) <==>
       MatchesOptional(pre, schema, doc) && FullTextMeaning(raws, nots, groups, RowOf(doc)))
  }

  lemma {:induction false} AddPositive(
    queries: seq<Query>, notQueries: seq<Query>, pre: Option<Query>,
    raws: seq<Pair>, n: nat, split: Split)
    requires n < |raws| && raws[n].0 in split.schema
    requires ClausesMean(queries, notQueries, pre, raws[..n], [], [], split.schema)
    ensures ClausesMean(
      queries + [ParsedQuery(raws[n].0, raws[n].1)], notQueries, pre, raws[..n + 1], [], [], split.schema)
  {
    assert raws[..n + 1] == raws[..n] + [raws[n]];
    forall doc {
      AllMatchSnoc(queries, ParsedQuery(raws[n].0, raws[n].1), split.schema, doc);
    }
  }

  /** A negated call on a missing field adds no clause: it is true of every document. */
  lemma {:induction false} AddNegative(
    queries: seq<Query>, notQueries: seq<Query>, pre: Option<Query>,
    raws: seq<Pair>, nots: seq<Pair>, n: nat, split: Split)
    requires n < |nots|
    requires ClausesMean(queries, notQueries, pre, raws, nots[..n], [], split.schema)
    ensures ClausesMean(
      queries, if nots[n].0 in split.schema then notQueries + [ParsedQuery(nots[n].0, nots[n].1)] else notQueries,
      pre, raws, nots[..n + 1], [], split.schema)
  {
    assert nots[..n + 1] == nots[..n] + [nots[n]];
    forall doc {
      NoneMatchSnoc(notQueries, ParsedQuery(nots[n].0, nots[n].1), split.schema, doc);
    }
  }

  lemma {:induction false} AddGroup(
    queries: seq<Query>, notQueries: seq<Query>, pre: Option<Query>, raws: seq<Pair>, nots: seq<Pair>,
    groups: seq<seq<Pair>>, n: nat, q: Query, split: Split)
    requires n < |groups|
    requires ClausesMean(queries, notQueries, pre, raws, nots, groups[..n], split.schema)
    requires forall doc :: ValidDoc(split.schema, doc) ==>
      (Matches(q, split.schema, doc) <==> AnyHit(groups[n], RowOf(doc)))
    ensures ClausesMean(queries + [q], notQueries, pre, raws, nots, groups[..n + 1], split.schema)
  {
    assert groups[..n + 1] == groups[..n] + [groups[n]];
    forall doc {
      AllMatchSnoc(queries, q, split.schema, doc);
    }
  }

  /** The query over all clauses, or none when there is no clause. */
  function Conjunction(queries: seq<Query>, notQueries: seq<Query>): Option<Query> {
    var positive :=
      if |queries| == 0 then None else if |queries| == 1 then Some(queries[0]) else Some(Intersection(queries));
    if notQueries == [] then positive
    else Some(MustAndMustNot(if positive.None? then AllQuery else positive.value, notQueries))
  }

  lemma {:induction false} ConjunctionMeaning(queries: seq<Query>, notQueries: seq<Query>, schema: Schema, doc: Doc)
    ensures MatchesOptional(Conjunction(queries, notQueries), schema, doc) <==>
      AllMatch(queries, schema, doc) && NoneMatch(notQueries, schema, doc)
  {
    var positive := Conjunction(queries, []);
    assert MatchesOptional(positive, schema, doc) <==> AllMatch(queries, schema, doc);
    if notQueries != [] {
      var must := if positive.None? then AllQuery else positive.value;
      assert Matches(must, schema, doc) <==> MatchesOptional(positive, schema, doc);
      assert Matches(MustAndMustNot(must, notQueries), schema, doc) <==>
        Matches(must, schema, doc) && NoneMatch(notQueries, schema, doc);
    }
  }

  method BuildCombinedQuery(
    split: Split, pre: Option<Query>, raws: seq<Pair>, nots: seq<Pair>, groups: seq<seq<Pair>>)
    returns (r: Result<Option<Query>, Pair>)
    ensures r.Err? <==> ParsingFails(split, raws, nots, groups)
    ensures r.Ok? ==> forall doc :: ValidDoc(split.schema, doc) ==>
      (MatchesOptional(r.value, split.schema, doc) <==>
       MatchesOptional(pre, split.schema, doc) && FullTextMeaning(raws, nots, groups, RowOf(doc)))
  {
    var queries: seq<Query> := [];
    var notQueries: seq<Query> := [];
    if pre.Some? {
      queries := queries + [pre.value];
      forall doc {
        AllMatchSnoc([], pre.value, split.schema, doc);
      }
    }

    for n := 0 to |raws|
      invariant ClausesMean(queries, notQueries, pre, raws[..n], [], [], split.schema) && notQueries == []
      invariant forall i :: 0 <= i < n ==> raws[i].0 in split.schema && !Rejected(split, raws[i])
    {
      RejectedBeforeMissingAt(split, raws, n);
      var parsed := ParseRawQuery(split, raws[n]);
      if parsed.Err? {
        return Err(parsed.error);
      }
      if parsed.value.None? {
        return Ok(Some(EmptyQuery));
      }
      AddPositive(queries, notQueries, pre, raws, n, split);
      queries := queries + [parsed.value.value];
    }
    NothingRejected(split, raws);
    assert raws[..|raws|] == raws;

    for n := 0 to |nots|
      invariant ClausesMean(queries, notQueries, pre, raws, nots[..n], [], split.schema)
      invariant forall i :: 0 <= i < n ==> !Rejected(split, nots[i])
    {
      var parsed := ParseRawQuery(split, nots[n]);
      if parsed.Err? {
        return Err(parsed.error);
      }
      AddNegative(queries, notQueries, pre, raws, nots, n, split);
      if parsed.value.Some? {
        notQueries := notQueries + [parsed.value.value];
      }
    }
    assert nots[..|nots|] == nots;

    for n := 0 to |groups|
      invariant ClausesMean(queries, notQueries, pre, raws, nots, groups[..n], split.schema)
      invariant forall i :: 0 <= i < n ==> !AnyRejected(split, groups[i])
    {
      var group := BuildGroupQuery(split, groups[n]);
      if group.Err? {
        return Err(group.error);
      }
      AddGroup(queries, notQueries, pre, raws, nots, groups, n, group.value, split);
      queries := queries + [group.value];
    }
    assert groups[..|groups|] == groups;

    forall doc {
      ConjunctionMeaning(queries, notQueries, split.schema, doc);
    }
    return Ok(Conjunction(queries, notQueries));
  }
}
