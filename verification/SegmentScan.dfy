/**
 The streaming scan: three ways of walking the live documents of a segment in chunks, and the loop over
 segments with its row limit, cancellation and early-stopping receiver.
*/
module SegmentScan {
  import opened Prelude
  import opened DocChunks

  /** A cursor over the matching documents of a segment, in increasing order. */
  class DocSet {
    const docs: seq<nat>
    const scores: seq<real>
    var pos: nat

    ghost predicate Valid()
      reads this
    {
      pos <= |docs| && |scores| == |docs| && forall i :: 0 <= i < |docs| ==> docs[i] < TERMINATED
    }

    constructor (docs: seq<nat>, scores: seq<real>)
      requires |scores| == |docs| && forall i :: 0 <= i < |docs| ==> docs[i] < TERMINATED
      ensures Valid() && pos == 0 && this.docs == docs && this.scores == scores
    {
      this.docs := docs;
      this.scores := scores;
      pos := 0;
    }

    function Doc(): (doc: nat)
      requires Valid()
      reads this
      ensures doc == TERMINATED <==> pos == |docs|
    {
      if pos < |docs| then docs[pos] else TERMINATED
    }

    function Score(): real
      requires Valid() && Doc() != TERMINATED
      reads this
    {
      scores[pos]
    }

    method Advance() returns (doc: nat)
      requires Valid() && Doc() != TERMINATED
      modifies this
      ensures Valid() && pos == old(pos) + 1 && doc == Doc()
    {
      pos := pos + 1;
      doc := Doc();
    }

    /** Fills the buffer from its start; fewer documents than the buffer holds means the end was reached. */
    method FillBuffer(buffer: array<nat>) returns (n: nat)
      requires Valid()
      modifies this, buffer
      ensures Valid() && n == Min(buffer.Length, |docs| - old(pos)) && pos == old(pos) + n
      ensures buffer[..n] == docs[old(pos)..pos]
    {
      n := 0;
      while n < buffer.Length && pos < |docs|
        invariant Valid() && n <= buffer.Length && pos == old(pos) + n
        invariant buffer[..n] == docs[old(pos)..pos]
      {
        buffer[n] := docs[pos];
        assert docs[old(pos)..pos + 1] == docs[old(pos)..pos] + [docs[pos]];
        n := n + 1;
        pos := pos + 1;
      }
    }
  }

  datatype Turn = Continue | Exhausted | Halted

  /** The state a scan threads through its callbacks: the cancel flag, the row budget and the receiver. */
  class ScanRun {
    const batchSize: nat
    const cancelAt: Option<nat>
    const dropAt: Option<nat>
    var loads: nat
    var remaining: nat
    var batches: seq<seq<Row>>
    var offers: nat

    constructor (batchSize: nat, rowLimit: Option<nat>, cancelAt: Option<nat>, dropAt: Option<nat>)
      ensures this.batchSize == batchSize && this.cancelAt == cancelAt && this.dropAt == dropAt
      ensures State() == Sink(RowBudget(rowLimit), [], 0) && !Cancelled() && Polled()
    {
      this.batchSize := batchSize;
      this.cancelAt := cancelAt;
      this.dropAt := dropAt;
      loads := 0;
      remaining := RowBudget(rowLimit);
      batches := [];
      offers := 0;
    }

    ghost function State(): Sink
      reads this
    {
      Sink(remaining, batches, offers)
    }

    /** Whether some load of the flag has already seen it set. */
    ghost predicate Cancelled()
      reads this
    {
      cancelAt.Some? && loads > cancelAt.value
    }

    /** Every batch was offered after a load of the flag of its own that found it clear. */
    ghost predicate Polled()
      reads this
    {
      offers <= loads && (cancelAt.Some? ==> offers <= cancelAt.value)
    }

    method LoadCancelled() returns (stop: bool)
      modifies this`loads
      ensures stop == Cancelled() && loads == old(loads) + 1
    {
      loads := loads + 1;
      stop := cancelAt.Some? && loads > cancelAt.value;
    }

    method Emit(batch: seq<Row>) returns (taken: bool)
      modifies this`batches, this`offers
      ensures offers == old(offers) + 1
      ensures taken == !(dropAt.Some? && old(offers) >= dropAt.value)
      ensures batches == if taken then old(batches) + [batch] else old(batches)
    {
      taken := !(dropAt.Some? && offers >= dropAt.value);
      if taken {
        batches := batches + [batch];
      }
      offers := offers + 1;
    }

    /** The chunk callback: clip to the row budget, spend it, and offer the batch. */
    method OnChunk(segment: nat, ids: seq<nat>, scores: Option<seq<real>>) returns (more: bool)
      requires scores.Some? ==> |scores.value| == |ids|
      modifies this
      ensures loads >= old(loads) && (old(Polled()) ==> Polled())
      ensures
        || (State(), more) == Step(old(State()), ChunkRows(segment, ids, scores), dropAt)
        || (Cancelled() && !more && State() == old(State()))
    {
      if remaining == 0 {
        return false;
      }
      var stop := LoadCancelled();
      if stop {
        return false;
      }
      var take := Min(remaining, |ids|);
      var batch := ChunkRows(segment, ids[..take], if scores.Some? then Some(scores.value[..take]) else None);
      assert batch == ChunkRows(segment, ids, scores)[..take];
      remaining := remaining - take;
      if |batch| > 0 {
        var taken := Emit(batch);
        if !taken {
          return false;
        }
      }
      return remaining > 0;
    }

    /** Hands over a full buffer, or the last one, as the next chunk; an empty buffer is not handed over. */
    method Flush(
      segment: nat, ids: seq<nat>, scores: Option<seq<real>>,
      ghost before: Sink, ghost chunks: seq<seq<Row>>, ghost k: nat, ghost rest: seq<Row>)
      returns (more: bool, ghost next: nat)
      requires scores.Some? ==> |scores.value| == |ids|
      requires Underway(before, State(), chunks, k, ChunkRows(segment, ids, scores) + rest, batchSize, dropAt)
      requires batchSize > 0 ==> |ids| <= batchSize
      requires rest != [] ==> ids == [] || |ids| == batchSize
      modifies this
      ensures loads >= old(loads) && (old(Polled()) ==> Polled())
      ensures more ==> Underway(before, State(), chunks, next, rest, batchSize, dropAt)
      ensures !more ==> Delivered(before, State(), Cancelled(), chunks, dropAt)
    {
      next := k;
      ghost var pending := ChunkRows(segment, ids, scores);
      if ids == [] {
        assert pending + rest == rest;
        return true, next;
      }
      if rest == [] {
        assert pending + rest == pending;
        assert Chunks(pending, batchSize) == [pending] + Chunks(rest, batchSize);
      } else {
        FullChunkFirst(pending, rest, batchSize);
      }
      ShiftBoundary(chunks, k, pending, Chunks(rest, batchSize));
      DeliverSnoc(before, chunks[..k], pending, dropAt);
      ghost var held := State();
      more := OnChunk(segment, ids, scores);
      next := k + 1;
      if !more {
        if (State(), more) == Step(held, pending, dropAt) {
          StopIsFinal(before, chunks, k + 1, dropAt);
          assert chunks[..|chunks|] == chunks;
        } else {
          assert State() == Deliver(before, chunks[..k], dropAt).0;
        }
      }
    }

    /** One turn of the scored loop: poll the flag, buffer the document if it is live, flush a full buffer. */
    method VisitScoredDoc(
      ord: nat, seg: Segment, scorer: DocSet, buffered: seq<nat>, bufferedScores: seq<real>,
      ghost before: Sink, ghost chunks: seq<seq<Row>>, ghost k: nat)
      returns (ids: seq<nat>, scores: seq<real>, more: bool, ghost next: nat)
      requires ValidSegment(seg) && scorer.Valid() && scorer.docs == seg.matching && scorer.scores == seg.scores
      requires scorer.Doc() != TERMINATED
      requires |bufferedScores| == |buffered| && (batchSize > 0 ==> |buffered| < batchSize)
      requires Underway(
        before, State(), chunks, k,
        ChunkRows(ord, buffered, Some(bufferedScores)) + RowsFrom(ScoredSource(ord, seg), scorer.pos),
        batchSize, dropAt)
      modifies this
      ensures loads >= old(loads) && (old(Polled()) ==> Polled())
      ensures !more ==> Delivered(before, State(), Cancelled(), chunks, dropAt)
      ensures more ==> |scores| == |ids| && (batchSize > 0 ==> |ids| < batchSize) && Underway(
        before, State(), chunks, next,
        ChunkRows(ord, ids, Some(scores)) + RowsFrom(ScoredSource(ord, seg), scorer.pos + 1), batchSize, dropAt)
    {
      ghost var src, p := ScoredSource(ord, seg), scorer.pos;
      ids, scores, more, next := buffered, bufferedScores, true, k;
      var stop := LoadCancelled();
      if stop {
        more := false;
        return;
      }
      if IsAlive(seg.alive, scorer.Doc()) {
        BufferRow(src, p, ids, Some(scores));
        ids := ids + [scorer.Doc()];
        scores := scores + [scorer.Score()];
        if |ids| == batchSize {
          more, next := Flush(ord, ids, Some(scores), before, chunks, next, RowsFrom(src, p + 1));
          ids, scores := [], [];
          EmptyBuffer(ord, Some(scores), RowsFrom(src, p + 1));
        }
      } else {
        assert RowsFrom(src, p) == RowsFrom(src, p + 1);
      }
    }

    /** Document at a time, with scores. */
    method ExecuteScoredQueryChunks(ord: nat, seg: Segment)
      requires ValidSegment(seg)
      modifies this
      ensures loads >= old(loads) && (old(Polled()) ==> Polled())
      ensures Delivered(
        old(State()), State(), Cancelled(), SegmentChunks(ScoredSource(ord, seg), batchSize), dropAt)
    {
      ghost var src := ScoredSource(ord, seg);
      ghost var before, chunks, k := State(), SegmentChunks(src, batchSize), 0;
      var scorer := new DocSet(seg.matching, seg.scores);
      var ids: seq<nat>, scoreBuffer: seq<real> := [], [];
      var doc := scorer.Doc();
      EmptyBuffer(ord, Some(scoreBuffer), RowsFrom(src, 0));
      NothingDelivered(before, chunks, RowsFrom(src, 0), batchSize, dropAt);
      while doc != TERMINATED
        invariant scorer.Valid() && scorer.docs == seg.matching && scorer.scores == seg.scores
        invariant doc == scorer.Doc() && fresh(scorer)
        invariant |scoreBuffer| == |ids| && (batchSize > 0 ==> |ids| < batchSize)
        invariant loads >= old(loads) && (old(Polled()) ==> Polled())
        invariant Underway(
          before, State(), chunks, k,
          ChunkRows(ord, ids, Some(scoreBuffer)) + RowsFrom(src, scorer.pos), batchSize, dropAt)
        decreases |seg.matching| - scorer.pos
      {
        var more;
        ids, scoreBuffer, more, k := VisitScoredDoc(ord, seg, scorer, ids, scoreBuffer, before, chunks, k);
        if !more {
          return;
        }
        doc := scorer.Advance();
      }
      var more;
      more, k := Flush(ord, ids, Some(scoreBuffer), before, chunks, k, []);
      FinishedDelivery(before, State(), Cancelled(), chunks, k, batchSize, dropAt, more);
    }

    /** Pushes the live documents of one block, flushing whenever the buffer is full. */
    method PushBlock(
      ord: nat, seg: Segment, rawDocs: array<nat>, numDocs: nat, buffered: seq<nat>,
      ghost start: nat, ghost before: Sink, ghost chunks: seq<seq<Row>>, ghost k: nat)
      returns (ids: seq<nat>, more: bool, ghost next: nat)
      requires ValidSegment(seg) && numDocs <= rawDocs.Length && start + numDocs <= |seg.matching|
      requires rawDocs[..numDocs] == seg.matching[start..start + numDocs]
      requires batchSize > 0 ==> |buffered| < batchSize
      requires Underway(
        before, State(), chunks, k,
        ChunkRows(ord, buffered, None) + RowsFrom(UnscoredSource(ord, seg), start), batchSize, dropAt)
      modifies this
      ensures loads >= old(loads) && (old(Polled()) ==> Polled())
      ensures more ==> (batchSize > 0 ==> |ids| < batchSize) && Underway(
        before, State(), chunks, next,
        ChunkRows(ord, ids, None) + RowsFrom(UnscoredSource(ord, seg), start + numDocs), batchSize, dropAt)
      ensures !more ==> Delivered(before, State(), Cancelled(), chunks, dropAt)
    {
      ghost var src := UnscoredSource(ord, seg);
      ids, more, next := buffered, true, k;
      for j := 0 to numDocs
        invariant more && (batchSize > 0 ==> |ids| < batchSize)
        invariant loads >= old(loads) && (old(Polled()) ==> Polled())
        invariant Underway(
          before, State(), chunks, next, ChunkRows(ord, ids, None) + RowsFrom(src, start + j), batchSize, dropAt)
      {
        var doc := rawDocs[j];
        assert doc == rawDocs[..numDocs][j] == seg.matching[start + j];
        if !IsAlive(seg.alive, doc) {
          assert RowsFrom(src, start + j) == RowsFrom(src, start + j + 1);
          continue;
        }
        BufferRow(src, start + j, ids, None);
        ids := ids + [doc];
        if |ids| == batchSize {
          more, next := Flush(ord, ids, None, before, chunks, next, RowsFrom(src, start + j + 1));
          if !more {
            return;
          }
          ids := [];
          EmptyBuffer(ord, None, RowsFrom(src, start + j + 1));
        }
      }
    }

    /** One turn of the block loop: poll the flag, fill the buffer, push the block. */
    method ScanBlock(
      ord: nat, seg: Segment, docset: DocSet, rawDocs: array<nat>, buffered: seq<nat>,
      ghost before: Sink, ghost chunks: seq<seq<Row>>, ghost k: nat)
      returns (ids: seq<nat>, turn: Turn, ghost next: nat)
      requires ValidSegment(seg) && docset.Valid() && docset.docs == seg.matching && rawDocs.Length > 0
      requires batchSize > 0 ==> |buffered| < batchSize
      requires Underway(
        before, State(), chunks, k,
        ChunkRows(ord, buffered, None) + RowsFrom(UnscoredSource(ord, seg), docset.pos), batchSize, dropAt)
      modifies this, docset, rawDocs
      ensures loads >= old(loads) && (old(Polled()) ==> Polled())
      ensures docset.Valid() && docset.docs == seg.matching
      ensures turn.Halted? ==> Delivered(before, State(), Cancelled(), chunks, dropAt)
      ensures !turn.Halted? ==> (batchSize > 0 ==> |ids| < batchSize) && Underway(
        before, State(), chunks, next,
        ChunkRows(ord, ids, None) + RowsFrom(UnscoredSource(ord, seg), docset.pos), batchSize, dropAt)
      ensures turn.Exhausted? ==> docset.pos == |seg.matching|
      ensures turn.Continue? ==> docset.pos > old(docset.pos)
    {
      ids, next := buffered, k;
      var stop := LoadCancelled();
      if stop {
        assert Delivered(before, State(), Cancelled(), chunks, dropAt);
        return ids, Halted, next;
      }
      ghost var start := docset.pos;
      var numDocs := docset.FillBuffer(rawDocs);
      if numDocs == 0 {
        return ids, Exhausted, next;
      }
      var more;
      ids, more, next := PushBlock(ord, seg, rawDocs, numDocs, ids, start, before, chunks, next);
      if !more {
        return ids, Halted, next;
      }
      turn := if numDocs < rawDocs.Length then Exhausted else Continue;
    }

    /** Block at a time, without scores. */
    method ExecuteUnscoredQueryChunks(ord: nat, seg: Segment, blockLen: nat)
      requires ValidSegment(seg) && blockLen > 0
      modifies this
      ensures loads >= old(loads) && (old(Polled()) ==> Polled())
      ensures Delivered(
        old(State()), State(), Cancelled(), SegmentChunks(UnscoredSource(ord, seg), batchSize), dropAt)
    {
      ghost var src := UnscoredSource(ord, seg);
      ghost var before, chunks, k := State(), SegmentChunks(src, batchSize), 0;
      var docset := new DocSet(seg.matching, seg.scores);
      var rawDocs := new nat[blockLen];
      var ids: seq<nat> := [];
      EmptyBuffer(ord, None, RowsFrom(src, 0));
      NothingDelivered(before, chunks, RowsFrom(src, 0), batchSize, dropAt);
      var turn := Continue;
      while turn.Continue?
        invariant docset.Valid() && docset.docs == seg.matching && fresh(docset)
        invariant batchSize > 0 ==> |ids| < batchSize
        invariant loads >= old(loads) && (old(Polled()) ==> Polled())
        invariant !turn.Halted?
        invariant turn.Exhausted? ==> docset.pos == |seg.matching|
        invariant Underway(
          before, State(), chunks, k, ChunkRows(ord, ids, None) + RowsFrom(src, docset.pos), batchSize, dropAt)
        decreases turn.Continue?, |seg.matching| - docset.pos
      {
        ids, turn, k := ScanBlock(ord, seg, docset, rawDocs, ids, before, chunks, k);
        if turn.Halted? {
          return;
        }
      }
      var more;
      more, k := Flush(ord, ids, None, before, chunks, k, []);
      FinishedDelivery(before, State(), Cancelled(), chunks, k, batchSize, dropAt, more);
    }

    /** Every live document, when there is no query. */
    method ExecuteFullScanChunks(ord: nat, seg: Segment)
      requires ValidSegment(seg)
      modifies this
      ensures loads >= old(loads) && (old(Polled()) ==> Polled())
      ensures Delivered(
        old(State()), State(), Cancelled(), SegmentChunks(FullSource(ord, seg), batchSize), dropAt)
    {
      ghost var src := FullSource(ord, seg);
      ghost var before, chunks, k := State(), SegmentChunks(src, batchSize), 0;
      var ids: seq<nat> := [];
      EmptyBuffer(ord, None, RowsFrom(src, 0));
      NothingDelivered(before, chunks, RowsFrom(src, 0), batchSize, dropAt);
      for doc := 0 to seg.maxDoc
        invariant batchSize > 0 ==> |ids| < batchSize
        invariant loads >= old(loads) && (old(Polled()) ==> Polled())
        invariant Underway(
          before, State(), chunks, k, ChunkRows(ord, ids, None) + RowsFrom(src, doc), batchSize, dropAt)
      {
        var stop := LoadCancelled();
        if stop {
          return;
        }
        if IsAlive(seg.alive, doc) {
          BufferRow(src, doc, ids, None);
          ids := ids + [doc];
        } else {
          assert RowsFrom(src, doc) == RowsFrom(src, doc + 1);
        }
        if |ids| == batchSize {
          var more;
          more, k := Flush(ord, ids, None, before, chunks, k, RowsFrom(src, doc + 1));
          if !more {
            return;
          }
          ids := [];
          EmptyBuffer(ord, None, RowsFrom(src, doc + 1));
        }
      }
      var more;
      more, k := Flush(ord, ids, None, before, chunks, k, []);
      FinishedDelivery(before, State(), Cancelled(), chunks, k, batchSize, dropAt, more);
    }

    /** A query with scores, a query without, or no query at all. */
    method ForEachMatchingDocChunks(ord: nat, seg: Segment, hasQuery: bool, needsScore: bool, blockLen: nat)
      requires ValidSegment(seg) && blockLen > 0
      modifies this
      ensures loads >= old(loads) && (old(Polled()) ==> Polled())
      ensures Delivered(
        old(State()), State(), Cancelled(),
        SegmentChunks(PassSource(ord, seg, hasQuery, needsScore), batchSize), dropAt)
    {
      if hasQuery && needsScore {
        ExecuteScoredQueryChunks(ord, seg);
      } else if hasQuery {
        ExecuteUnscoredQueryChunks(ord, seg, blockLen);
      } else {
        ExecuteFullScanChunks(ord, seg);
      }
    }

    /** One pass of the loop: the rows it offered, all of the segment's unless the scan was cancelled. */
    method ScanSegment(ord: nat, seg: Segment, hasQuery: bool, needsScore: bool, blockLen: nat)
      returns (ghost rows: seq<Row>)
      requires ValidSegment(seg) && blockLen > 0
      modifies this
      ensures loads >= old(loads) && (old(Polled()) ==> Polled())
      ensures IsPrefix(rows, RowsFrom(PassSource(ord, seg, hasQuery, needsScore), 0))
      ensures !Cancelled() ==> rows == RowsFrom(PassSource(ord, seg, hasQuery, needsScore), 0)
      ensures Adds(old(State()), State(), rows, dropAt)
      ensures batchSize > 0 ==> BatchesFit(old(|batches|), batches, batchSize)
    {
      ghost var held := State();
      ghost var chunks := SegmentChunks(PassSource(ord, seg, hasQuery, needsScore), batchSize);
      ForEachMatchingDocChunks(ord, seg, hasQuery, needsScore, blockLen);
      ghost var taken := OfferedChunks(held, State(), Cancelled(), chunks, dropAt);
      DeliveredRows(held, taken, dropAt);
      PassRows(ord, seg, hasQuery, needsScore, batchSize, taken);
      if batchSize > 0 {
        DeliveredSizes(held, taken, dropAt, batchSize);
        assert State().batches == batches;
      }
      rows := Flatten(taken);
    }

    /**
     The loop over segments. Without cancellation and with the receiver in place, the batches hold exactly the
     first `remaining` live rows in (segment, document) order; in every run they hold a prefix of those.
    */
    method EmitSegmentScanBatches(segments: seq<Segment>, hasQuery: bool, needsScore: bool, blockLen: nat)
      requires (forall i :: 0 <= i < |segments| ==> ValidSegment(segments[i])) && blockLen > 0
      modifies this
      ensures old(Polled()) ==> Polled()
      ensures ScanAnswer(
        old(State()), State(), SegmentRows(segments, hasQuery, needsScore), Cancelled(), dropAt)
      ensures batchSize > 0 ==> BatchesFit(old(|batches|), batches, batchSize)
    {
      ghost var before := State();
      ghost var offered: seq<Row> := [];
      var n, stop := 0, false;
      while n < |segments| && !stop
        invariant n <= |segments| && (old(Polled()) ==> Polled())
        invariant !stop ==> Offered(before, State(), segments, n, hasQuery, needsScore, offered, Cancelled(), dropAt)
        invariant stop ==> ScanAnswer(
          before, State(), SegmentRows(segments, hasQuery, needsScore), Cancelled(), dropAt)
        invariant batchSize > 0 ==> BatchesFit(|before.batches|, batches, batchSize)
        decreases |segments| - n, !stop
      {
        offered, stop := ScanNext(segments, n, hasQuery, needsScore, blockLen, before, offered);
        n := n + 1;
      }
      if !stop {
        RowsUpToGrow(segments, n, |segments|, hasQuery, needsScore);
        AnswerFrom(before, State(), SegmentRows(segments, hasQuery, needsScore), offered, Cancelled(), dropAt);
      }
    }

    /** One turn of the loop over segments: leave it when the budget is spent or the flag is set, else scan on. */
    method ScanNext(
      segments: seq<Segment>, n: nat, hasQuery: bool, needsScore: bool, blockLen: nat,
      ghost before: Sink, ghost offered: seq<Row>)
      returns (ghost next: seq<Row>, stop: bool)
      requires (forall i :: 0 <= i < |segments| ==> ValidSegment(segments[i])) && blockLen > 0 && n < |segments|
      requires Offered(before, State(), segments, n, hasQuery, needsScore, offered, Cancelled(), dropAt)
      requires batchSize > 0 ==> BatchesFit(|before.batches|, batches, batchSize)
      modifies this
      ensures old(Polled()) ==> Polled()
      ensures !stop ==> Offered(before, State(), segments, n + 1, hasQuery, needsScore, next, Cancelled(), dropAt)
      ensures stop ==> ScanAnswer(
        before, State(), SegmentRows(segments, hasQuery, needsScore), Cancelled(), dropAt)
      ensures batchSize > 0 ==> BatchesFit(|before.batches|, batches, batchSize)
    {
      next := offered;
      if remaining == 0 {
        BudgetSpent(before, State(), segments, n, hasQuery, needsScore, offered, Cancelled(), dropAt);
        return next, true;
      }
      stop := LoadCancelled();
      if stop {
        RowsUpToGrow(segments, n, |segments|, hasQuery, needsScore);
        AnswerFrom(before, State(), SegmentRows(segments, hasQuery, needsScore), offered, true, dropAt);
        return;
      }
      ghost var held := State();
      ghost var rows := ScanSegment(n, segments[n], hasQuery, needsScore, blockLen);
      AddsCompose(before, held, State(), offered, rows, dropAt);
      next := offered + rows;
    }
  }

  /** The rows offered so far: a prefix of the first n segments' rows, all of them unless the scan was cancelled. */
  ghost predicate Offered(
    before: Sink, now: Sink, segments: seq<Segment>, n: nat, hasQuery: bool, needsScore: bool,
    offered: seq<Row>, cancelled: bool, dropAt: Option<nat>)
    requires n <= |segments| && forall i :: 0 <= i < |segments| ==> ValidSegment(segments[i])
  {
    && IsPrefix(offered, RowsUpTo(segments, n, hasQuery, needsScore))
    && (!cancelled ==> offered == RowsUpTo(segments, n, hasQuery, needsScore))
    && Adds(before, now, offered, dropAt)
  }

  /**
   The promise of a scan: every run delivers, after what was there, a prefix of the wanted rows, and a run that
   was neither cancelled nor refused delivers all of them.
  */
  ghost predicate ScanAnswer(before: Sink, after: Sink, all: seq<Row>, cancelled: bool, dropAt: Option<nat>) {
    var answer := Flatten(before.batches) + Take(all, before.remaining);
    && before.batches <= after.batches
    && (Consistent(before, dropAt) ==> Consistent(after, dropAt))
    && IsPrefix(Flatten(after.batches), answer)
    && (!cancelled && !Refused(after, dropAt) ==> Flatten(after.batches) == answer)
  }

  lemma {:induction false} AnswerFrom(
    before: Sink, after: Sink, all: seq<Row>, offered: seq<Row>, cancelled: bool, dropAt: Option<nat>)
    requires Adds(before, after, offered, dropAt) && IsPrefix(offered, all)
    requires !cancelled ==> offered == all
    ensures ScanAnswer(before, after, all, cancelled, dropAt)
  {
    TakePrefix(offered, all, before.remaining);
  }

  lemma {:induction false} BudgetSpent(
    before: Sink, after: Sink, segments: seq<Segment>, n: nat, hasQuery: bool, needsScore: bool,
    offered: seq<Row>, cancelled: bool, dropAt: Option<nat>)
    requires n <= |segments| && forall i :: 0 <= i < |segments| ==> ValidSegment(segments[i])
    requires Adds(before, after, offered, dropAt) && after.remaining == 0
    requires IsPrefix(offered, RowsUpTo(segments, n, hasQuery, needsScore))
    ensures ScanAnswer(before, after, SegmentRows(segments, hasQuery, needsScore), cancelled, dropAt)
  {
    var all := SegmentRows(segments, hasQuery, needsScore);
    RowsUpToGrow(segments, n, |segments|, hasQuery, needsScore);
    assert all == offered + all[|offered|..];
    AddsNoMore(before, after, offered, all[|offered|..], dropAt);
    AnswerFrom(before, after, all, all, cancelled, dropAt);
  }

  /** The chunks that were actually offered in a pass. */
  ghost function OfferedChunks(
    before: Sink, after: Sink, cancelled: bool, chunks: seq<seq<Row>>, dropAt: Option<nat>): (taken: seq<seq<Row>>)
    requires Delivered(before, after, cancelled, chunks, dropAt)
    ensures taken <= chunks && after == Deliver(before, taken, dropAt).0 && (!cancelled ==> taken == chunks)
  {
    if after == Deliver(before, chunks, dropAt).0 then chunks
    else
      var k: nat :| k <= |chunks| && after == Deliver(before, chunks[..k], dropAt).0;
      chunks[..k]
  }

  ghost function PassSource(ord: nat, seg: Segment, hasQuery: bool, needsScore: bool): Source {
    if hasQuery && needsScore then ScoredSource(ord, seg)
    else if hasQuery then UnscoredSource(ord, seg)
    else FullSource(ord, seg)
  }

  /** The live rows of the first n segments, in (segment, document) order. */
  ghost function RowsUpTo(segments: seq<Segment>, n: nat, hasQuery: bool, needsScore: bool): seq<Row>
    requires n <= |segments| && forall i :: 0 <= i < |segments| ==> ValidSegment(segments[i])
  {
    if n == 0 then []
    else
      assert ValidSegment(segments[n - 1]);
      RowsUpTo(segments, n - 1, hasQuery, needsScore) +
      RowsFrom(PassSource(n - 1, segments[n - 1], hasQuery, needsScore), 0)
  }

  ghost function SegmentRows(segments: seq<Segment>, hasQuery: bool, needsScore: bool): seq<Row>
    requires forall i :: 0 <= i < |segments| ==> ValidSegment(segments[i])
  {
    RowsUpTo(segments, |segments|, hasQuery, needsScore)
  }

  lemma {:induction false} RowsUpToGrow(segments: seq<Segment>, n: nat, m: nat, hasQuery: bool, needsScore: bool)
    requires n <= m <= |segments| && forall i :: 0 <= i < |segments| ==> ValidSegment(segments[i])
    ensures IsPrefix(RowsUpTo(segments, n, hasQuery, needsScore), RowsUpTo(segments, m, hasQuery, needsScore))
    decreases m
  {
    if n == m {
    } else {
      RowsUpToGrow(segments, n, m - 1, hasQuery, needsScore);
    }
  }

  lemma {:induction false} FlattenPrefix<T>(part: seq<seq<T>>, whole: seq<seq<T>>)
    requires part <= whole
    ensures IsPrefix(Flatten(part), Flatten(whole))
  {
    assert whole == part + whole[|part|..];
    FlattenAppend(part, whole[|part|..]);
  }

  lemma {:induction false} PassRows(
    ord: nat, seg: Segment, hasQuery: bool, needsScore: bool, batchSize: nat, taken: seq<seq<Row>>)
    requires ValidSegment(seg)
    requires taken <= SegmentChunks(PassSource(ord, seg, hasQuery, needsScore), batchSize)
    ensures var rows := RowsFrom(PassSource(ord, seg, hasQuery, needsScore), 0);
      && IsPrefix(Flatten(taken), rows)
      && (taken == SegmentChunks(PassSource(ord, seg, hasQuery, needsScore), batchSize) ==> Flatten(taken) == rows)
      && (batchSize > 0 ==> forall i :: 0 <= i < |taken| ==> |taken[i]| <= batchSize)
  {
    var rows := RowsFrom(PassSource(ord, seg, hasQuery, needsScore), 0);
    ChunksCover(rows, batchSize);
    FlattenPrefix(taken, Chunks(rows, batchSize));
    assert forall i :: 0 <= i < |taken| ==> taken[i] == Chunks(rows, batchSize)[i];
  }

  lemma {:induction false} TakePrefix<T>(part: seq<T>, whole: seq<T>, n: nat)
    requires IsPrefix(part, whole)
    ensures IsPrefix(Take(part, n), Take(whole, n))
  {
  }

  // ---------------------------------------------------------------------------
  // What a pass over one segment delivers
  // ---------------------------------------------------------------------------

  ghost function ScoredSource(ord: nat, seg: Segment): Source {
    Source(ord, seg.matching, Some(seg.scores), seg.alive)
  }

  ghost function UnscoredSource(ord: nat, seg: Segment): Source {
    Source(ord, seg.matching, None, seg.alive)
  }

  ghost function FullSource(ord: nat, seg: Segment): Source {
    Source(ord, seq(seg.maxDoc, i => i), None, seg.alive)
  }

  ghost function SegmentChunks(src: Source, batchSize: nat): seq<seq<Row>>
    requires ValidSource(src)
  {
    Chunks(RowsFrom(src, 0), batchSize)
  }

  /** All chunks were offered, or, after a cancellation, some first ones. */
  ghost predicate Delivered(
    before: Sink, after: Sink, cancelled: bool, chunks: seq<seq<Row>>, dropAt: Option<nat>)
  {
    || after == Deliver(before, chunks, dropAt).0
    || (cancelled && exists k: nat :: k <= |chunks| && after == Deliver(before, chunks[..k], dropAt).0)
  }

  /** The first k chunks are delivered, the sink wants more, and `unsent` is what is left to cut. */
  ghost predicate Underway(
    before: Sink, now: Sink, chunks: seq<seq<Row>>, k: nat, unsent: seq<Row>, batchSize: nat, dropAt: Option<nat>)
  {
    && k <= |chunks|
    && Deliver(before, chunks[..k], dropAt) == (now, true)
    && chunks[k..] == Chunks(unsent, batchSize)
  }

  lemma {:induction false} NothingDelivered(
    before: Sink, chunks: seq<seq<Row>>, rows: seq<Row>, batchSize: nat, dropAt: Option<nat>)
    requires chunks == Chunks(rows, batchSize)
    ensures Underway(before, before, chunks, 0, rows, batchSize, dropAt)
  {
  }

  lemma {:induction false} FinishedDelivery(
    before: Sink, now: Sink, cancelled: bool, chunks: seq<seq<Row>>, k: nat, batchSize: nat, dropAt: Option<nat>,
    more: bool)
    requires more ==> Underway(before, now, chunks, k, [], batchSize, dropAt)
    requires !more ==> Delivered(before, now, cancelled, chunks, dropAt)
    ensures Delivered(before, now, cancelled, chunks, dropAt)
  {
    if more {
      assert chunks[..k] == chunks;
    }
  }

  function RowBudget(rowLimit: Option<nat>): nat {
    if rowLimit.Some? then rowLimit.value else USIZE_MAX
  }

  // ---------------------------------------------------------------------------
  // The three passes agree
  // ---------------------------------------------------------------------------

  function EraseScores(rows: seq<Row>): (erased: seq<Row>)
    ensures |erased| == |rows| && forall i :: 0 <= i < |rows| ==> erased[i] == rows[i].(score := None)
  {
    seq(|rows|, i requires 0 <= i < |rows| => rows[i].(score := None))
  }

  lemma {:induction false} ScoredRowsErased(ord: nat, seg: Segment, p: nat)
    requires ValidSegment(seg) && p <= |seg.matching|
    ensures EraseScores(RowsFrom(ScoredSource(ord, seg), p)) == RowsFrom(UnscoredSource(ord, seg), p)
    decreases |seg.matching| - p
  {
    if p == |seg.matching| {
    } else {
      ScoredRowsErased(ord, seg, p + 1);
    }
  }

  lemma {:induction false} ErasedChunks(rows: seq<Row>, b: nat)
    ensures |Chunks(EraseScores(rows), b)| == |Chunks(rows, b)|
    ensures forall i :: 0 <= i < |Chunks(rows, b)| ==>
      Chunks(EraseScores(rows), b)[i] == EraseScores(Chunks(rows, b)[i])
  {
    if rows == [] || b == 0 || |rows| <= b {
    } else {
      ErasedChunks(rows[b..], b);
      assert EraseScores(rows)[b..] == EraseScores(rows[b..]);
      assert EraseScores(rows)[..b] == EraseScores(rows[..b]);
    }
  }

  /**
   For every segment and batch size, block-filled iteration delivers the chunks of document-at-a-time iteration,
   boundaries included, up to the scores; and both deliver the chunks of the full scan when every document matches.
  */
  lemma {:induction false} PassesAgree(ord: nat, seg: Segment, b: nat)
    requires ValidSegment(seg)
    ensures
      var scored := SegmentChunks(ScoredSource(ord, seg), b);
      var unscored := SegmentChunks(UnscoredSource(ord, seg), b);
      |scored| == |unscored| && forall i :: 0 <= i < |scored| ==> EraseScores(scored[i]) == unscored[i]
    ensures seg.matching == seq(seg.maxDoc, i => i) ==>
      SegmentChunks(UnscoredSource(ord, seg), b) == SegmentChunks(FullSource(ord, seg), b)
  {
    ScoredRowsErased(ord, seg, 0);
    ErasedChunks(RowsFrom(ScoredSource(ord, seg), 0), b);
  }

  /** The row of some live document visited at or after position p. */
  ghost predicate IsLiveRow(src: Source, p: nat, row: Row)
    requires ValidSource(src)
  {
    exists i :: p <= i < |src.docs| && (src.alive.Some? ==> src.docs[i] in src.alive.value) && row == SourceRow(src, i)
  }

  /** The rows of a pass are exactly the visited documents that are alive, once each and in increasing order. */
  lemma {:induction false} PassRowsAreTheLiveDocs(src: Source, p: nat)
    requires ValidSource(src) && p <= |src.docs|
    requires forall i, j :: 0 <= i < j < |src.docs| ==> src.docs[i] < src.docs[j]
    ensures forall row :: row in RowsFrom(src, p) <==> IsLiveRow(src, p, row)
    ensures forall j, k :: 0 <= j < k < |RowsFrom(src, p)| ==> RowsFrom(src, p)[j].doc < RowsFrom(src, p)[k].doc
    decreases |src.docs| - p
  {
    if p == |src.docs| {
    } else {
      PassRowsAreTheLiveDocs(src, p + 1);
      var rest, rows := RowsFrom(src, p + 1), RowsFrom(src, p);
      forall row
        ensures row in rows <==> IsLiveRow(src, p, row)
      {
        assert row in rest <==> IsLiveRow(src, p + 1, row);
      }
      if IsAlive(src.alive, src.docs[p]) {
        assert rows == [SourceRow(src, p)] + rest;
        forall k | 0 <= k < |rest|
          ensures src.docs[p] < rest[k].doc
        {
          assert IsLiveRow(src, p + 1, rest[k]);
        }
      } else {
        assert rows == rest;
      }
    }
  }

  ghost function SourceRow(src: Source, i: nat): Row
    requires ValidSource(src) && i < |src.docs|
  {
    Row(src.segment, src.docs[i], if src.scores.Some? then Some(src.scores.value[i]) else None)
  }

  /** The row of a live document of its segment: one that the query matches, with its score if scores are wanted. */
  ghost predicate IsWanted(row: Row, segments: seq<Segment>, hasQuery: bool, needsScore: bool)
    requires forall i :: 0 <= i < |segments| ==> ValidSegment(segments[i])
  {
    && row.segment < |segments|
    && var seg := segments[row.segment];
       && (seg.alive.Some? ==> row.doc in seg.alive.value)
       && if hasQuery then IsMatch(row, seg, needsScore) else row.doc < seg.maxDoc && row.score == None
  }

  ghost predicate IsMatch(row: Row, seg: Segment, needsScore: bool)
    requires ValidSegment(seg)
  {
    exists i :: 0 <= i < |seg.matching| && row.doc == seg.matching[i] &&
                row.score == if needsScore then Some(seg.scores[i]) else None
  }

  ghost predicate IsBefore(a: Row, b: Row) {
    a.segment < b.segment || (a.segment == b.segment && a.doc < b.doc)
  }

  lemma {:induction false} PassRowsAreWanted(segments: seq<Segment>, n: nat, hasQuery: bool, needsScore: bool)
    requires n < |segments| && (forall i :: 0 <= i < |segments| ==> ValidSegment(segments[i]))
    requires ValidSegment(segments[n])
    ensures var rows := RowsFrom(PassSource(n, segments[n], hasQuery, needsScore), 0);
      && (forall row :: row in rows <==> row.segment == n && IsWanted(row, segments, hasQuery, needsScore))
      && (forall j, k :: 0 <= j < k < |rows| ==> IsBefore(rows[j], rows[k]))
  {
    var src := PassSource(n, segments[n], hasQuery, needsScore);
    PassRowsAreTheLiveDocs(src, 0);
    var rows := RowsFrom(src, 0);
    forall row
      ensures row in rows <==> row.segment == n && IsWanted(row, segments, hasQuery, needsScore)
    {
      assert row in rows <==> IsLiveRow(src, 0, row);
      if row.segment == n && IsWanted(row, segments, hasQuery, needsScore) {
        if hasQuery {
          var i :| 0 <= i < |src.docs| && row.doc == src.docs[i] &&
                   row.score == if needsScore then Some(segments[n].scores[i]) else None;
          assert row == SourceRow(src, i);
        } else {
          assert row == SourceRow(src, row.doc);
        }
      }
    }
    forall j, k | 0 <= j < k < |rows|
      ensures IsBefore(rows[j], rows[k])
    {
      assert rows[j] in rows && rows[k] in rows;
    }
  }

  /**
   The rows of a scan without the passes that make them: the wanted documents of all segments, each once, in the order
   of their segments and then of their numbers.
  */
  lemma {:induction false} RowsAreTheWantedOnes(segments: seq<Segment>, n: nat, hasQuery: bool, needsScore: bool)
    requires n <= |segments| && forall i :: 0 <= i < |segments| ==> ValidSegment(segments[i])
    ensures var rows := RowsUpTo(segments, n, hasQuery, needsScore);
      && (forall row :: row in rows <==> row.segment < n && IsWanted(row, segments, hasQuery, needsScore))
      && (forall j, k :: 0 <= j < k < |rows| ==> IsBefore(rows[j], rows[k]))
  {
    if n == 0 {
    } else {
      RowsAreTheWantedOnes(segments, n - 1, hasQuery, needsScore);
      assert ValidSegment(segments[n - 1]);
      PassRowsAreWanted(segments, n - 1, hasQuery, needsScore);
      var before := RowsUpTo(segments, n - 1, hasQuery, needsScore);
      var last := RowsFrom(PassSource(n - 1, segments[n - 1], hasQuery, needsScore), 0);
      var rows := RowsUpTo(segments, n, hasQuery, needsScore);
      assert rows == before + last;
      forall j, k | 0 <= j < k < |rows|
        ensures IsBefore(rows[j], rows[k])
      {
        if j < |before| <= k {
          assert before[j] in before && last[k - |before|] in last;
        }
      }
    }
  }
}
