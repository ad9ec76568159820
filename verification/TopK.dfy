/**
 The top-k path: ranked hits are scattered into per-segment batches, concatenated in segment order, and
 gathered back into rank order.
*/
module TopK {
  import opened Prelude
  import opened DocChunks

  const U32_MAX := 0xFFFF_FFFF

  /** A ranked hit. */
  datatype Hit = Hit(score: real, segment: nat, doc: nat)

  /** A hit inside its segment's group, with its rank. */
  datatype GroupRow = GroupRow(doc: nat, score: real, rank: nat)

  type Groups = map<nat, seq<GroupRow>>

  datatype TopkError = TooManyRows | NoQuery | OffsetOverflow

  function HitRow(hit: Hit): Row {
    Row(hit.segment, hit.doc, Some(hit.score))
  }

  function HitRows(hits: seq<Hit>): (rows: seq<Row>)
    ensures |rows| == |hits| && forall i :: 0 <= i < |hits| ==> rows[i] == HitRow(hits[i])
  {
    seq(|hits|, i requires 0 <= i < |hits| => HitRow(hits[i]))
  }

  predicate OneSegment(hits: seq<Hit>) {
    forall i :: 0 <= i < |hits| ==> hits[i].segment == hits[0].segment
  }

  // ---------------------------------------------------------------------------
  // Grouping
  // ---------------------------------------------------------------------------

  /** The hits of one segment with their ranks, in rank order. */
  function RowsOfSegment(hits: seq<Hit>, segment: nat): seq<GroupRow> {
    if hits == [] then []
    else
      var n := |hits| - 1;
      RowsOfSegment(hits[..n], segment) +
      (if hits[n].segment == segment then [GroupRow(hits[n].doc, hits[n].score, n)] else [])
  }

  function GroupAt(grouped: Groups, segment: nat): seq<GroupRow> {
    if segment in grouped then grouped[segment] else []
  }

  ghost predicate GroupsOf(grouped: Groups, hits: seq<Hit>) {
    && (forall segment :: GroupAt(grouped, segment) == RowsOfSegment(hits, segment))
    && (forall segment :: segment in grouped ==> grouped[segment] != [])
  }

  method GroupTopkHits(hits: seq<Hit>) returns (grouped: Groups)
    ensures GroupsOf(grouped, hits)
  {
    grouped := map[];
    for n := 0 to |hits|
      invariant GroupsOf(grouped, hits[..n])
    {
      assert hits[..n + 1][..n] == hits[..n];
      var segment := hits[n].segment;
      grouped := grouped[segment := GroupAt(grouped, segment) + [GroupRow(hits[n].doc, hits[n].score, n)]];
    }
    assert hits[..|hits|] == hits;
  }

  ghost predicate CopiesHit(row: GroupRow, hits: seq<Hit>, segment: nat) {
    row.rank < |hits| && hits[row.rank] == Hit(row.score, segment, row.doc)
  }

  ghost predicate HasRank(rows: seq<GroupRow>, rank: nat) {
    exists j :: 0 <= j < |rows| && rows[j].rank == rank
  }

  /** A segment's rows are its hits: ranks increase, each row copies the hit of its rank, and none is missing. */
  lemma {:induction false} RowsOfSegmentAreItsHits(hits: seq<Hit>, segment: nat)
    ensures forall j :: 0 <= j < |RowsOfSegment(hits, segment)| ==>
      CopiesHit(RowsOfSegment(hits, segment)[j], hits, segment)
    ensures forall j, k :: 0 <= j < k < |RowsOfSegment(hits, segment)| ==>
      RowsOfSegment(hits, segment)[j].rank < RowsOfSegment(hits, segment)[k].rank
    ensures forall i :: 0 <= i < |hits| && hits[i].segment == segment ==> HasRank(RowsOfSegment(hits, segment), i)
  {
    if hits == [] {
    } else {
      var n := |hits| - 1;
      var before, rows := RowsOfSegment(hits[..n], segment), RowsOfSegment(hits, segment);
      RowsOfSegmentAreItsHits(hits[..n], segment);
      assert rows == before + (if hits[n].segment == segment then [GroupRow(hits[n].doc, hits[n].score, n)] else []);
      forall j | 0 <= j < |before|
        ensures rows[j] == before[j] && CopiesHit(rows[j], hits, segment)
      {
        assert CopiesHit(before[j], hits[..n], segment);
      }
      forall i | 0 <= i < |hits| && hits[i].segment == segment
        ensures HasRank(rows, i)
      {
        if i < n {
          assert hits[..n][i].segment == segment;
          var j :| 0 <= j < |before| && before[j].rank == i;
          assert rows[j].rank == i;
        } else {
          assert rows[|before|].rank == i;
        }
      }
    }
  }

  /** How many hits lie in the given segments. */
  ghost function CountIn(hits: seq<Hit>, segments: set<nat>): (count: nat)
    ensures count <= |hits|
  {
    if hits == [] then 0
    else CountIn(hits[..|hits| - 1], segments) + if hits[|hits| - 1].segment in segments then 1 else 0
  }

  lemma {:induction false} CountGrows(hits: seq<Hit>, segments: set<nat>, segment: nat)
    requires segment !in segments
    ensures CountIn(hits, segments + {segment}) == CountIn(hits, segments) + |RowsOfSegment(hits, segment)|
  {
    if hits == [] {
    } else {
      CountGrows(hits[..|hits| - 1], segments, segment);
    }
  }

  lemma {:induction false} CountNoneOrAll(hits: seq<Hit>, segments: set<nat>)
    ensures segments == {} ==> CountIn(hits, segments) == 0
    ensures (forall i :: 0 <= i < |hits| ==> hits[i].segment in segments) ==> CountIn(hits, segments) == |hits|
  {
    if hits == [] {
    } else {
      CountNoneOrAll(hits[..|hits| - 1], segments);
    }
  }

  // ---------------------------------------------------------------------------
  // Scattering
  // ---------------------------------------------------------------------------

  function SegmentBatch(segment: nat, rows: seq<GroupRow>): (batch: seq<Row>)
    ensures |batch| == |rows|
    ensures forall j :: 0 <= j < |rows| ==> batch[j] == Row(segment, rows[j].doc, Some(rows[j].score))
  {
    seq(|rows|, j requires 0 <= j < |rows| => Row(segment, rows[j].doc, Some(rows[j].score)))
  }

  ghost predicate RanksFit(rows: seq<GroupRow>, length: nat) {
    && (forall j :: 0 <= j < |rows| ==> rows[j].rank < length)
    && (forall j, k :: 0 <= j < k < |rows| ==> rows[j].rank < rows[k].rank)
  }

  /** Writes, at each row's rank, the row's place in the concatenation of the batches. */
  method CollectTopkRows(rows: seq<GroupRow>, concatOffset: nat, takePositions: array<nat>)
    returns (r: Result<(seq<nat>, seq<real>), TopkError>)
    requires RanksFit(rows, takePositions.Length)
    modifies takePositions
    ensures r.Ok? <==> rows == [] || concatOffset + |rows| - 1 <= U32_MAX
    ensures r.Ok? ==> |r.value.0| == |r.value.1| == |rows|
    ensures r.Ok? ==> forall j :: 0 <= j < |rows| ==>
      r.value.0[j] == rows[j].doc && r.value.1[j] == rows[j].score && takePositions[rows[j].rank] == concatOffset + j
    ensures forall p :: 0 <= p < takePositions.Length && (forall j :: 0 <= j < |rows| ==> rows[j].rank != p) ==>
      takePositions[p] == old(takePositions[p])
  {
    var docIds: seq<nat>, scores: seq<real> := [], [];
    for n := 0 to |rows|
      invariant |docIds| == |scores| == n && (n > 0 ==> concatOffset + n - 1 <= U32_MAX)
      invariant forall j :: 0 <= j < n ==>
        docIds[j] == rows[j].doc && scores[j] == rows[j].score && takePositions[rows[j].rank] == concatOffset + j
      invariant forall p :: 0 <= p < takePositions.Length && (forall j :: 0 <= j < |rows| ==> rows[j].rank != p) ==>
        takePositions[p] == old(takePositions[p])
    {
      docIds := docIds + [rows[n].doc];
      scores := scores + [rows[n].score];
      if concatOffset + n > U32_MAX {
        return Err(OffsetOverflow);
      }
      takePositions[rows[n].rank] := concatOffset + n;
    }
    return Ok((docIds, scores));
  }

  /** The smallest key: an ordered map is iterated from it upwards. */
  function Smallest(keys: set<nat>): (k: nat)
    requires keys != {}
    ensures k in keys && forall j :: j in keys ==> k <= j
  {
    assert exists k :: k in keys && forall j :: j in keys ==> k <= j by {
      var least := SmallestOf(keys);
    }
    var k :| k in keys && forall j :: j in keys ==> k <= j;
    k
  }

  lemma {:induction false} SmallestOf(keys: set<nat>) returns (least: nat)
    requires keys != {}
    ensures least in keys && forall j :: j in keys ==> least <= j
  {
    var k :| k in keys;
    var rest := keys - {k};
    least := k;
    if rest != {} {
      var m := SmallestOf(rest);
      least := if k <= m then k else m;
    }
    forall j | j in keys
      ensures least <= j
    {
      assert j == k || j in rest;
    }
  }

  /** Every hit of a finished segment can be found through its take position. */
  ghost predicate Scattered(hits: seq<Hit>, done: set<nat>, concatenated: seq<Row>, take: seq<nat>) {
    && |hits| <= |take|
    && |concatenated| == CountIn(hits, done)
    && (forall i :: 0 <= i < |hits| && hits[i].segment in done ==>
          take[i] < |concatenated| && concatenated[take[i]] == HitRow(hits[i]))
    && (forall i :: 0 <= i < |take| && (i < |hits| ==> hits[i].segment !in done) ==> take[i] == 0)
  }

  /** A hit of the segment is the row at the place that was written for its rank. */
  lemma {:induction false} ScatteredHit(
    hits: seq<Hit>, segment: nat, rows: seq<GroupRow>, offset: nat, next: seq<nat>, i: nat)
    requires rows == RowsOfSegment(hits, segment) && i < |hits| && i < |next| && hits[i].segment == segment
    requires forall j :: 0 <= j < |rows| ==> rows[j].rank < |next| && next[rows[j].rank] == offset + j
    ensures offset <= next[i] < offset + |rows| && SegmentBatch(segment, rows)[next[i] - offset] == HitRow(hits[i])
  {
    RowsOfSegmentAreItsHits(hits, segment);
    assert HasRank(rows, i);
    var j :| 0 <= j < |rows| && rows[j].rank == i;
    assert CopiesHit(rows[j], hits, segment);
  }

  lemma {:induction false} ScatterSegment(
    hits: seq<Hit>, done: set<nat>, segment: nat, concatenated: seq<Row>, take: seq<nat>, next: seq<nat>)
    requires Scattered(hits, done, concatenated, take) && segment !in done && |next| == |take|
    requires var rows := RowsOfSegment(hits, segment);
      && (forall j :: 0 <= j < |rows| ==> rows[j].rank < |next| && next[rows[j].rank] == |concatenated| + j)
      && (forall p :: 0 <= p < |next| && (forall j :: 0 <= j < |rows| ==> rows[j].rank != p) ==> next[p] == take[p])
    ensures Scattered(
      hits, done + {segment}, concatenated + SegmentBatch(segment, RowsOfSegment(hits, segment)), next)
  {
    var rows := RowsOfSegment(hits, segment);
    RowsOfSegmentAreItsHits(hits, segment);
    CountGrows(hits, done, segment);
    forall j | 0 <= j < |rows|
      ensures hits[rows[j].rank].segment == segment
    {
      assert CopiesHit(rows[j], hits, segment);
    }
    forall i | 0 <= i < |hits| && hits[i].segment in done + {segment}
      ensures next[i] < |concatenated| + |rows|
      ensures (concatenated + SegmentBatch(segment, rows))[next[i]] == HitRow(hits[i])
    {
      if hits[i].segment == segment {
        ScatteredHit(hits, segment, rows, |concatenated|, next, i);
      } else {
        assert next[i] == take[i];
      }
    }
  }

  /** One batch per finished segment, smallest segment first. */
  ghost predicate BatchPerSegment(grouped: Groups, done: set<nat>, hits: seq<Hit>, batches: seq<seq<Row>>) {
    && done <= grouped.Keys
    && (batches == [] <==> done == {})
    && (batches != [] ==>
          grouped != map[] &&
          batches[0] == SegmentBatch(Smallest(grouped.Keys), RowsOfSegment(hits, Smallest(grouped.Keys))))
    && (|batches| == 1 ==> done == {Smallest(grouped.Keys)})
    && (|batches| > 1 ==> exists a, b :: a in done && b in done && a != b)
  }

  lemma {:induction false} OneMoreBatch(
    grouped: Groups, pending: set<nat>, hits: seq<Hit>, batches: seq<seq<Row>>, batch: seq<Row>)
    requires pending != {} && pending <= grouped.Keys
    requires BatchPerSegment(grouped, grouped.Keys - pending, hits, batches)
    requires batch == SegmentBatch(Smallest(pending), RowsOfSegment(hits, Smallest(pending)))
    ensures BatchPerSegment(grouped, grouped.Keys - (pending - {Smallest(pending)}), hits, batches + [batch])
  {
    var segment, done := Smallest(pending), grouped.Keys - pending;
    assert grouped.Keys - (pending - {segment}) == done + {segment};
    if batches == [] {
      forall key | key in grouped.Keys
        ensures key in pending
      {
        assert key !in done;
      }
      assert pending == grouped.Keys;
      assert done + {segment} == {segment};
    } else if |batches| == 1 {
      assert Smallest(grouped.Keys) in done + {segment} && segment !in done;
    }
  }

  method ScatterRows(
    hits: seq<Hit>, segment: nat, rows: seq<GroupRow>, concatOffset: nat, takePositions: array<nat>,
    ghost done: set<nat>, ghost concatenated: seq<Row>)
    returns (batch: seq<Row>)
    requires |hits| <= takePositions.Length <= U32_MAX && segment !in done
    requires rows == RowsOfSegment(hits, segment) && concatOffset == |concatenated|
    requires Scattered(hits, done, concatenated, takePositions[..])
    modifies takePositions
    ensures batch == SegmentBatch(segment, rows)
    ensures Scattered(hits, done + {segment}, concatenated + batch, takePositions[..])
  {
    ghost var before := takePositions[..];
    RowsOfSegmentAreItsHits(hits, segment);
    CountGrows(hits, done, segment);
    var collected := CollectTopkRows(rows, concatOffset, takePositions);
    var (docIds, scores) := collected.value;
    batch := ChunkRows(segment, docIds, Some(scores));
    assert batch == SegmentBatch(segment, rows);
    ScatterSegment(hits, done, segment, concatenated, before, takePositions[..]);
  }

  ghost predicate BuildState(
    hits: seq<Hit>, grouped: Groups, pending: set<nat>, batches: seq<seq<Row>>, take: seq<nat>)
  {
    && pending <= grouped.Keys
    && Scattered(hits, grouped.Keys - pending, Flatten(batches), take)
    && BatchPerSegment(grouped, grouped.Keys - pending, hits, batches)
  }

  /** One turn of the loop over groups: the batch of the smallest pending segment. */
  method ScatterNext(
    hits: seq<Hit>, grouped: Groups, pending: set<nat>, segmentBatches: seq<seq<Row>>, concatOffset: nat,
    takePositions: array<nat>)
    returns (batch: seq<Row>)
    requires |hits| <= takePositions.Length <= U32_MAX && GroupsOf(grouped, hits) && pending != {}
    requires BuildState(hits, grouped, pending, segmentBatches, takePositions[..])
    requires concatOffset == |Flatten(segmentBatches)|
    modifies takePositions
    ensures BuildState(hits, grouped, pending - {Smallest(pending)}, segmentBatches + [batch], takePositions[..])
    ensures |Flatten(segmentBatches + [batch])| == concatOffset + |batch|
  {
    var segment := Smallest(pending);
    var rows := grouped[segment];
    assert rows == GroupAt(grouped, segment);
    ghost var done := grouped.Keys - pending;
    batch := ScatterRows(hits, segment, rows, concatOffset, takePositions, done, Flatten(segmentBatches));
    FlattenSnoc(segmentBatches, batch);
    OneMoreBatch(grouped, pending, hits, segmentBatches, batch);
    assert grouped.Keys - (pending - {segment}) == done + {segment};
  }

  method BuildTopkSegmentBatches(hits: seq<Hit>, grouped: Groups, effectiveTopk: nat)
    returns (r: Result<seq<seq<Row>>, TopkError>, takePositions: array<nat>)
    requires |hits| <= effectiveTopk <= U32_MAX
    requires GroupsOf(grouped, hits)
    ensures r.Ok? && takePositions.Length == effectiveTopk && fresh(takePositions)
    ensures Scattered(hits, grouped.Keys, Flatten(r.value), takePositions[..])
    ensures BatchPerSegment(grouped, grouped.Keys, hits, r.value)
  {
    var segmentBatches: seq<seq<Row>> := [];
    takePositions := new nat[effectiveTopk](_ => 0);
    var concatOffset := 0;
    var pending := grouped.Keys;
    CountNoneOrAll(hits, {});
    assert grouped.Keys - pending == {};
    while pending != {}
      invariant BuildState(hits, grouped, pending, segmentBatches, takePositions[..])
      invariant concatOffset == |Flatten(segmentBatches)|
    {
      var segment := Smallest(pending);
      var batch := ScatterNext(hits, grouped, pending, segmentBatches, concatOffset, takePositions);
      concatOffset := concatOffset + |batch|;
      segmentBatches := segmentBatches + [batch];
      pending := pending - {segment};
    }
    assert grouped.Keys - pending == grouped.Keys;
    r := Ok(segmentBatches);
  }

  // ---------------------------------------------------------------------------
  // Gathering
  // ---------------------------------------------------------------------------

  /** The concatenated batches in take order; a single batch is passed on as it is. */
  method ReorderTopkBatches(segmentBatches: seq<seq<Row>>, takePositions: array<nat>) returns (rows: seq<Row>)
    requires segmentBatches != []
    requires |segmentBatches| > 1 ==>
      forall i :: 0 <= i < takePositions.Length ==> takePositions[i] < |Flatten(segmentBatches)|
    ensures |segmentBatches| == 1 ==> rows == segmentBatches[0]
    ensures |segmentBatches| > 1 ==>
      |rows| == takePositions.Length &&
      forall i :: 0 <= i < |rows| ==> rows[i] == Flatten(segmentBatches)[takePositions[i]]
  {
    if |segmentBatches| == 1 {
      return segmentBatches[0];
    }
    var concatenated := Flatten(segmentBatches);
    rows := [];
    for n := 0 to takePositions.Length
      invariant |rows| == n && forall i :: 0 <= i < n ==> rows[i] == concatenated[takePositions[i]]
    {
      rows := rows + [concatenated[takePositions[n]]];
    }
  }

  /** The row that fills up the answer: the best hit of the smallest segment. */
  ghost predicate IsPadding(row: Row, hits: seq<Hit>) {
    exists i :: 0 <= i < |hits| && row == HitRow(hits[i]) && forall j :: 0 <= j < |hits| ==>
      hits[i].segment <= hits[j].segment && (hits[j].segment == hits[i].segment ==> i <= j)
  }

  /**
   The answer of the top-k path: the ranked hits in rank order, followed, when they come from several segments
   and are fewer than asked for, by repetitions of one of them.
  */
  ghost predicate TopkAnswer(rows: seq<Row>, hits: seq<Hit>, effectiveTopk: nat) {
    && |rows| == (if OneSegment(hits) then |hits| else effectiveTopk)
    && (forall i :: 0 <= i < |hits| && i < |rows| ==> rows[i] == HitRow(hits[i]))
    && (forall i :: |hits| <= i < |rows| ==> IsPadding(rows[i], hits))
  }

  lemma {:induction false} OneSegmentRows(hits: seq<Hit>, segment: nat)
    requires forall i :: 0 <= i < |hits| ==> hits[i].segment == segment
    ensures SegmentBatch(segment, RowsOfSegment(hits, segment)) == HitRows(hits)
  {
    if hits == [] {
    } else {
      OneSegmentRows(hits[..|hits| - 1], segment);
      var n := |hits| - 1;
      var before := RowsOfSegment(hits[..n], segment);
      assert RowsOfSegment(hits, segment) == before + [GroupRow(hits[n].doc, hits[n].score, n)];
      assert |before| == |SegmentBatch(segment, before)| == n;
      forall i | 0 <= i < n
        ensures SegmentBatch(segment, RowsOfSegment(hits, segment))[i] == HitRow(hits[i])
      {
        assert SegmentBatch(segment, before)[i] == HitRows(hits[..n])[i];
      }
    }
  }

  lemma {:induction false} FirstRowIsPadding(grouped: Groups, hits: seq<Hit>)
    requires GroupsOf(grouped, hits) && grouped != map[]
    ensures var first := SegmentBatch(Smallest(grouped.Keys), RowsOfSegment(hits, Smallest(grouped.Keys)));
      first != [] && IsPadding(first[0], hits)
  {
    var segment := Smallest(grouped.Keys);
    var rows := RowsOfSegment(hits, segment);
    assert rows == GroupAt(grouped, segment);
    RowsOfSegmentAreItsHits(hits, segment);
    assert CopiesHit(rows[0], hits, segment);
    var i := rows[0].rank;
    forall j | 0 <= j < |hits|
      ensures segment <= hits[j].segment && (hits[j].segment == segment ==> i <= j)
    {
      SegmentIsGrouped(grouped, hits, j);
      if hits[j].segment == segment {
        assert HasRank(rows, j);
        var k :| 0 <= k < |rows| && rows[k].rank == j;
        assert k == 0 || rows[0].rank < rows[k].rank;
      }
    }
    assert SegmentBatch(segment, rows)[0] == HitRow(hits[i]);
  }

  lemma {:induction false} SegmentIsGrouped(grouped: Groups, hits: seq<Hit>, i: nat)
    requires GroupsOf(grouped, hits) && i < |hits|
    ensures hits[i].segment in grouped
  {
    RowsOfSegmentAreItsHits(hits, hits[i].segment);
    assert HasRank(RowsOfSegment(hits, hits[i].segment), i);
    assert GroupAt(grouped, hits[i].segment) == RowsOfSegment(hits, hits[i].segment);
  }

  lemma {:induction false} GroupedSegmentHasHit(grouped: Groups, hits: seq<Hit>, segment: nat) returns (i: nat)
    requires GroupsOf(grouped, hits) && segment in grouped
    ensures i < |hits| && hits[i].segment == segment
  {
    RowsOfSegmentAreItsHits(hits, segment);
    assert GroupAt(grouped, segment) == RowsOfSegment(hits, segment);
    assert CopiesHit(RowsOfSegment(hits, segment)[0], hits, segment);
    i := RowsOfSegment(hits, segment)[0].rank;
  }

  lemma {:induction false} OneBatchAnswer(grouped: Groups, hits: seq<Hit>, batches: seq<seq<Row>>, effectiveTopk: nat)
    requires hits != [] && GroupsOf(grouped, hits) && BatchPerSegment(grouped, grouped.Keys, hits, batches)
    requires |batches| == 1
    ensures TopkAnswer(batches[0], hits, effectiveTopk)
  {
    var segment := Smallest(grouped.Keys);
    forall i | 0 <= i < |hits|
      ensures hits[i].segment == segment
    {
      SegmentIsGrouped(grouped, hits, i);
    }
    OneSegmentRows(hits, segment);
  }

  lemma {:induction false} ManyBatchesAnswer(
    grouped: Groups, hits: seq<Hit>, batches: seq<seq<Row>>, take: seq<nat>, rows: seq<Row>, effectiveTopk: nat)
    requires GroupsOf(grouped, hits) && BatchPerSegment(grouped, grouped.Keys, hits, batches)
    requires Scattered(hits, grouped.Keys, Flatten(batches), take) && |take| == effectiveTopk
    requires |batches| > 1 && |rows| == |take|
    requires forall i :: 0 <= i < |rows| ==> take[i] < |Flatten(batches)| && rows[i] == Flatten(batches)[take[i]]
    ensures TopkAnswer(rows, hits, effectiveTopk)
  {
    var a, b :| a in grouped && b in grouped && a != b;
    var i := GroupedSegmentHasHit(grouped, hits, a);
    var j := GroupedSegmentHasHit(grouped, hits, b);
    assert !OneSegment(hits);
    forall k | 0 <= k < |hits|
      ensures rows[k] == HitRow(hits[k])
    {
      SegmentIsGrouped(grouped, hits, k);
    }
    FirstRowIsPadding(grouped, hits);
    assert Flatten(batches)[0] == batches[0][0];
  }

  /** The whole answer, before it is sliced. Under the guard on k, no offset overflows. */
  method TopkRows(hits: seq<Hit>, effectiveTopk: nat) returns (r: Result<seq<Row>, TopkError>)
    requires hits != [] && |hits| <= effectiveTopk <= U32_MAX
    ensures r.Ok? && TopkAnswer(r.value, hits, effectiveTopk)
  {
    var grouped := GroupTopkHits(hits);
    var built, takePositions := BuildTopkSegmentBatches(hits, grouped, effectiveTopk);
    SegmentIsGrouped(grouped, hits, 0);
    ghost var concatenated := Flatten(built.value);
    forall i | 0 <= i < takePositions.Length
      ensures takePositions[i] < |concatenated|
    {
      if i < |hits| {
        SegmentIsGrouped(grouped, hits, i);
      } else {
        FirstRowIsPadding(grouped, hits);
      }
      assert takePositions[..][i] == takePositions[i];
    }
    var rows := ReorderTopkBatches(built.value, takePositions);
    if |built.value| == 1 {
      OneBatchAnswer(grouped, hits, built.value, effectiveTopk);
    } else {
      ManyBatchesAnswer(grouped, hits, built.value, takePositions[..], rows, effectiveTopk);
    }
    return Ok(rows);
  }

  /** The answer is exactly the ranked hits if and only if they fill the request or lie in one segment. */
  lemma {:induction false} TopkExactWhen(rows: seq<Row>, hits: seq<Hit>, effectiveTopk: nat)
    requires |hits| <= effectiveTopk && TopkAnswer(rows, hits, effectiveTopk)
    ensures rows == HitRows(hits) <==> OneSegment(hits) || |hits| == effectiveTopk
  {
  }

  /** Two hits in two segments, asked for as three: the first hit comes back twice. */
  lemma {:induction false} PaddingRepeatsARow(rows: seq<Row>)
    requires TopkAnswer(rows, [Hit(2.0, 0, 7), Hit(1.0, 1, 4)], 3)
    ensures rows == [Row(0, 7, Some(2.0)), Row(1, 4, Some(1.0)), Row(0, 7, Some(2.0))]
  {
    var hits := [Hit(2.0, 0, 7), Hit(1.0, 1, 4)];
    assert hits[0].segment != hits[1].segment;
    assert IsPadding(rows[2], hits);
    assert rows[0] == HitRow(hits[0]) && rows[1] == HitRow(hits[1]);
  }
}
