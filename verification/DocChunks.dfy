/** Rows of a segment, cut into chunks of at most the batch size, and what a sink makes of a chunk sequence. */
module DocChunks {
  import opened Prelude

  const TERMINATED := 0x7FFF_FFFF
  const USIZE_MAX := 0xFFFF_FFFF_FFFF_FFFF

  /** One output row; the score is NULL unless the scan is scored. */
  datatype Row = Row(segment: nat, doc: nat, score: Option<real>)

  /** `matching` are the documents of the active query, in increasing order, with their scores. */
  datatype Segment = Segment(maxDoc: nat, alive: Option<set<nat>>, matching: seq<nat>, scores: seq<real>)

  /** The documents one pass visits in a segment. */
  datatype Source = Source(segment: nat, docs: seq<nat>, scores: Option<seq<real>>, alive: Option<set<nat>>)

  ghost predicate ValidSegment(seg: Segment) {
    && |seg.scores| == |seg.matching|
    && seg.maxDoc <= TERMINATED
    && (forall i :: 0 <= i < |seg.matching| ==> seg.matching[i] < seg.maxDoc)
    && (forall i, j :: 0 <= i < j < |seg.matching| ==> seg.matching[i] < seg.matching[j])
  }

  ghost predicate ValidSource(src: Source) {
    src.scores.Some? ==> |src.scores.value| == |src.docs|
  }

  predicate IsAlive(alive: Option<set<nat>>, doc: nat) {
    alive.None? || doc in alive.value
  }

  /** The live rows from position p on. */
  ghost function RowsFrom(src: Source, p: nat): seq<Row>
    requires ValidSource(src) && p <= |src.docs|
    decreases |src.docs| - p
  {
    if p == |src.docs| then []
    else
      (if IsAlive(src.alive, src.docs[p]) then
         [Row(src.segment, src.docs[p], if src.scores.Some? then Some(src.scores.value[p]) else None)]
       else [])
      + RowsFrom(src, p + 1)
  }

  /** The rows built from a chunk of ids and its scores. */
  function ChunkRows(segment: nat, ids: seq<nat>, scores: Option<seq<real>>): (rows: seq<Row>)
    requires scores.Some? ==> |scores.value| == |ids|
    ensures |rows| == |ids|
    ensures forall i :: 0 <= i < |ids| ==>
      rows[i] == Row(segment, ids[i], if scores.Some? then Some(scores.value[i]) else None)
  {
    seq(|ids|, i requires 0 <= i < |ids| =>
      Row(segment, ids[i], if scores.Some? then Some(scores.value[i]) else None))
  }

  /** A live row moves from the unvisited rows to the end of the buffer. */
  lemma {:induction false} BufferRow(src: Source, p: nat, ids: seq<nat>, scores: Option<seq<real>>)
    requires ValidSource(src) && p < |src.docs| && IsAlive(src.alive, src.docs[p])
    requires scores.Some? == src.scores.Some? && (scores.Some? ==> |scores.value| == |ids|)
    ensures
      ChunkRows(src.segment, ids + [src.docs[p]],
                if scores.Some? then Some(scores.value + [src.scores.value[p]]) else None)
        + RowsFrom(src, p + 1)
      == ChunkRows(src.segment, ids, scores) + RowsFrom(src, p)
  {
    var row := Row(src.segment, src.docs[p], if src.scores.Some? then Some(src.scores.value[p]) else None);
    var longer := if scores.Some? then Some(scores.value + [src.scores.value[p]]) else None;
    assert ChunkRows(src.segment, ids + [src.docs[p]], longer) == ChunkRows(src.segment, ids, scores) + [row];
    assert RowsFrom(src, p) == [row] + RowsFrom(src, p + 1);
  }

  lemma {:induction false} EmptyBuffer(segment: nat, scores: Option<seq<real>>, rest: seq<Row>)
    requires scores.Some? ==> scores.value == []
    ensures ChunkRows(segment, [], scores) + rest == rest
  {
  }

  /** Consecutive chunks of exactly b elements and a shorter last one; with b = 0, one chunk of everything. */
  function Chunks<T>(s: seq<T>, b: nat): seq<seq<T>> {
    if s == [] then []
    else if b == 0 || |s| <= b then [s]
    else [s[..b]] + Chunks(s[b..], b)
  }

  lemma {:induction false} ChunksCover<T>(s: seq<T>, b: nat)
    ensures Flatten(Chunks(s, b)) == s
    ensures forall i :: 0 <= i < |Chunks(s, b)| ==>
      Chunks(s, b)[i] != [] && (b > 0 ==> |Chunks(s, b)[i]| <= b)
  {
    if s != [] && b != 0 && |s| > b {
      ChunksCover(s[b..], b);
      assert s[..b] + s[b..] == s;
      assert Chunks(s, b)[1..] == Chunks(s[b..], b);
    } else if s != [] {
      assert Flatten([s]) == s + Flatten<T>([]);
    }
  }

  lemma {:induction false} NextChunk<T>(s: seq<T>, b: nat)
    requires s != [] && b > 0
    ensures var len := Min(|s|, b);
      Chunks(s, b) == [s[..len]] + Chunks(s[len..], b)
  {
    if |s| <= b {
      assert s[..|s|] == s && s[|s|..] == [];
    }
  }

  /** Moving the boundary between what is done and what is left by one element. */
  lemma {:induction false} ShiftBoundary<T>(all: seq<T>, k: nat, head: T, tail: seq<T>)
    requires k <= |all| && all[k..] == [head] + tail
    ensures k < |all| && all[k] == head && all[k + 1..] == tail && all[..k + 1] == all[..k] + [head]
  {
    assert all[k] == all[k..][0];
    assert all[k + 1..] == all[k..][1..];
  }

  lemma {:induction false} FullChunkFirst<T>(buffer: seq<T>, rest: seq<T>, b: nat)
    requires b > 0 && |buffer| == b
    ensures Chunks(buffer + rest, b) == [buffer] + Chunks(rest, b)
  {
    if rest == [] {
      assert buffer + rest == buffer;
    } else {
      assert (buffer + rest)[..b] == buffer && (buffer + rest)[b..] == rest;
    }
  }

  // ---------------------------------------------------------------------------
  // The sink
  // ---------------------------------------------------------------------------

  /** What the sink has done: rows still wanted, batches the receiver took, batches offered to it. */
  datatype Sink = Sink(remaining: nat, batches: seq<seq<Row>>, offers: nat)

  /** The receiver goes away before taking offer number `dropAt`, and stays away. */
  predicate Refused(sink: Sink, dropAt: Option<nat>) {
    dropAt.Some? && sink.offers > dropAt.value
  }

  /** The receiver took the first `dropAt` offers, or every offer if it never goes away. */
  ghost predicate Consistent(sink: Sink, dropAt: Option<nat>) {
    |sink.batches| == if dropAt.Some? && dropAt.value < sink.offers then dropAt.value else sink.offers
  }

  /** A sink was refused exactly when it offered more than was taken. */
  lemma {:induction false} RefusedWhen(sink: Sink, dropAt: Option<nat>)
    requires Consistent(sink, dropAt)
    ensures Refused(sink, dropAt) <==> |sink.batches| != sink.offers
  {
  }

  /** One chunk, on a scan that is not cancelled: the new state, and whether the sink wants more. */
  function Step(sink: Sink, chunk: seq<Row>, dropAt: Option<nat>): (Sink, bool) {
    var take := Min(sink.remaining, |chunk|);
    if take == 0 then (sink, sink.remaining > 0)
    else if dropAt.Some? && sink.offers >= dropAt.value then
      (sink.(remaining := sink.remaining - take, offers := sink.offers + 1), false)
    else
      (Sink(sink.remaining - take, sink.batches + [chunk[..take]], sink.offers + 1), sink.remaining > take)
  }

  /** Chunk after chunk until the sink wants no more. */
  function Deliver(sink: Sink, chunks: seq<seq<Row>>, dropAt: Option<nat>): (Sink, bool)
    decreases chunks
  {
    if chunks == [] then (sink, true)
    else
      var (next, more) := Step(sink, chunks[0], dropAt);
      if more then Deliver(next, chunks[1..], dropAt) else (next, false)
  }

  lemma {:induction false} DeliverSnoc(sink: Sink, chunks: seq<seq<Row>>, last: seq<Row>, dropAt: Option<nat>)
    ensures var (before, more) := Deliver(sink, chunks, dropAt);
      Deliver(sink, chunks + [last], dropAt) == if more then Step(before, last, dropAt) else (before, false)
    decreases chunks
  {
    if chunks == [] {
      assert chunks + [last] == [last] && [last][1..] == [];
    } else {
      assert (chunks + [last])[1..] == chunks[1..] + [last];
      DeliverSnoc(Step(sink, chunks[0], dropAt).0, chunks[1..], last, dropAt);
    }
  }

  /** Nothing is delivered after the sink has stopped. */
  lemma {:induction false} StopIsFinal(sink: Sink, chunks: seq<seq<Row>>, k: nat, dropAt: Option<nat>)
    requires k <= |chunks| && !Deliver(sink, chunks[..k], dropAt).1
    ensures Deliver(sink, chunks, dropAt) == Deliver(sink, chunks[..k], dropAt)
    decreases chunks
  {
    assert chunks[..k][1..] == chunks[1..][..k - 1];
    if Step(sink, chunks[0], dropAt).1 {
      StopIsFinal(Step(sink, chunks[0], dropAt).0, chunks[1..], k - 1, dropAt);
    }
  }

  ghost predicate IsPrefix<T>(a: seq<T>, b: seq<T>) {
    |a| <= |b| && b[..|a|] == a
  }

  lemma {:induction false} TakeAppend<T>(a: seq<T>, b: seq<T>, n: nat)
    ensures Take(a + b, n) == if n <= |a| then Take(a, n) else a + Take(b, n - |a|)
  {
    if n <= |a| {
      assert (a + b)[..n] == a[..n];
    } else if n <= |a + b| {
      assert (a + b)[..n] == a + b[..n - |a|];
    }
  }

  /**
   What offering `rows` adds: as long as the receiver is there, exactly the first `remaining` rows; otherwise a
   prefix of them.
  */
  ghost predicate Adds(sink: Sink, after: Sink, rows: seq<Row>, dropAt: Option<nat>) {
    var wanted := Take(rows, sink.remaining);
    && sink.batches <= after.batches
    && sink.offers <= after.offers
    && after.remaining <= sink.remaining
    && IsPrefix(Flatten(after.batches), Flatten(sink.batches) + wanted)
    && (!Refused(after, dropAt) ==>
          Flatten(after.batches) == Flatten(sink.batches) + wanted && after.remaining == sink.remaining - |wanted|)
    && (Refused(sink, dropAt) ==> after.batches == sink.batches)
    && (Consistent(sink, dropAt) ==> Consistent(after, dropAt))
  }

  lemma {:induction false} StepAdds(sink: Sink, chunk: seq<Row>, dropAt: Option<nat>)
    ensures var (next, more) := Step(sink, chunk, dropAt);
      Adds(sink, next, chunk, dropAt) && (!more ==> Refused(next, dropAt) || next.remaining == 0)
  {
    var take := Min(sink.remaining, |chunk|);
    assert Take(chunk, sink.remaining) == chunk[..take];
    FlattenSnoc(sink.batches, chunk[..take]);
  }

  lemma {:induction false} AddsAfterRefusal(
    sink: Sink, next: Sink, after: Sink, rows: seq<Row>, rest: seq<Row>, dropAt: Option<nat>)
    requires Adds(sink, next, rows, dropAt) && Adds(next, after, rest, dropAt) && Refused(next, dropAt)
    ensures Adds(sink, after, rows + rest, dropAt)
  {
    var start, all := Flatten(sink.batches), Take(rows + rest, sink.remaining);
    assert after.batches == next.batches && Refused(after, dropAt);
    assert IsPrefix(Take(rows, sink.remaining), all) by {
      TakeAppend(rows, rest, sink.remaining);
    }
    PrefixOfLonger(Flatten(next.batches), start, Take(rows, sink.remaining), all);
  }

  lemma {:induction false} PrefixOfLonger<T>(a: seq<T>, start: seq<T>, short: seq<T>, long: seq<T>)
    requires IsPrefix(a, start + short) && IsPrefix(short, long)
    ensures IsPrefix(a, start + long)
  {
    assert (start + long)[..|start + short|] == start + short;
  }

  /** What two lots of rows leave of a budget is what they leave together. */
  lemma {:induction false} TakeInTurns<T>(rows: seq<T>, rest: seq<T>, n: nat)
    ensures |Take(rows, n)| <= n
    ensures Take(rows + rest, n) == Take(rows, n) + Take(rest, n - |Take(rows, n)|)
  {
    TakeAppend(rows, rest, n);
  }

  lemma {:induction false} AddsCompose(
    sink: Sink, next: Sink, after: Sink, rows: seq<Row>, rest: seq<Row>, dropAt: Option<nat>)
    requires Adds(sink, next, rows, dropAt) && Adds(next, after, rest, dropAt)
    ensures Adds(sink, after, rows + rest, dropAt)
  {
    if Refused(next, dropAt) {
      AddsAfterRefusal(sink, next, after, rows, rest, dropAt);
    } else {
      var start := Flatten(sink.batches);
      var first, second := Take(rows, sink.remaining), Take(rest, next.remaining);
      TakeInTurns(rows, rest, sink.remaining);
      assert Flatten(next.batches) + second == start + (first + second);
    }
  }

  lemma {:induction false} AddsNoMore(sink: Sink, next: Sink, rows: seq<Row>, rest: seq<Row>, dropAt: Option<nat>)
    requires Adds(sink, next, rows, dropAt)
    requires Refused(next, dropAt) || next.remaining == 0
    ensures Adds(sink, next, rows + rest, dropAt)
  {
    TakeAppend(rows, rest, sink.remaining);
  }

  lemma {:induction false} DeliveredRows(sink: Sink, chunks: seq<seq<Row>>, dropAt: Option<nat>)
    ensures Adds(sink, Deliver(sink, chunks, dropAt).0, Flatten(chunks), dropAt)
    decreases chunks
  {
    if chunks == [] {
    } else {
      var (next, more) := Step(sink, chunks[0], dropAt);
      StepAdds(sink, chunks[0], dropAt);
      if more {
        DeliveredRows(next, chunks[1..], dropAt);
        AddsCompose(sink, next, Deliver(sink, chunks, dropAt).0, chunks[0], Flatten(chunks[1..]), dropAt);
      } else {
        AddsNoMore(sink, next, chunks[0], Flatten(chunks[1..]), dropAt);
      }
    }
  }

  /** No batch from position `from` on is empty or longer than b. */
  ghost predicate BatchesFit(from: nat, batches: seq<seq<Row>>, b: nat) {
    forall i :: from <= i < |batches| ==> 0 < |batches[i]| <= b
  }

  /** Batches are never empty and never longer than the longest chunk. */
  lemma {:induction false} DeliveredSizes(sink: Sink, chunks: seq<seq<Row>>, dropAt: Option<nat>, b: nat)
    requires forall i :: 0 <= i < |chunks| ==> |chunks[i]| <= b
    ensures BatchesFit(|sink.batches|, Deliver(sink, chunks, dropAt).0.batches, b)
    decreases chunks
  {
    if chunks == [] {
    } else {
      var (next, more) := Step(sink, chunks[0], dropAt);
      assert |chunks[0]| <= b;
      if more {
        DeliveredRows(next, chunks[1..], dropAt);
        DeliveredSizes(next, chunks[1..], dropAt, b);
        var after := Deliver(sink, chunks, dropAt).0;
        forall i | |sink.batches| <= i < |after.batches|
          ensures 0 < |after.batches[i]| <= b
        {
          assert after == Deliver(next, chunks[1..], dropAt).0;
          if i < |next.batches| {
            assert after.batches[i] == next.batches[i] == chunks[0][..Min(sink.remaining, |chunks[0]|)];
          }
        }
      }
    }
  }
}
