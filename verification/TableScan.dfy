/** Batch generation for one split: the top-k path if a k was pushed down, else the streaming scan. */
module TableScan {
  import opened Prelude
  import opened DocChunks
  import opened SegmentScan
  import opened TopK

  /** The first batches of a sequence were taken, and all of them unless the scan was cancelled or refused. */
  ghost predicate Emitted(
    before: seq<seq<Row>>, after: seq<seq<Row>>, batches: seq<seq<Row>>, interrupted: bool)
  {
    && before <= after <= before + batches
    && (!interrupted ==> after == before + batches)
  }

  /** The first chunks were taken, and `unsent` is what is left to cut. */
  ghost predicate Sliced(
    before: seq<seq<Row>>, now: seq<seq<Row>>, chunks: seq<seq<Row>>, sent: nat, unsent: seq<Row>, b: nat)
  {
    sent <= |chunks| && now == before + chunks[..sent] && chunks[sent..] == Chunks(unsent, b)
  }

  lemma {:induction false} SlicedSoFar(
    before: seq<seq<Row>>, now: seq<seq<Row>>, chunks: seq<seq<Row>>, sent: nat, unsent: seq<Row>, b: nat)
    requires Sliced(before, now, chunks, sent, unsent, b)
    ensures Emitted(before, now, chunks, true)
    ensures unsent == [] ==> Emitted(before, now, chunks, false)
  {
    if unsent == [] {
      assert chunks[..sent] == chunks;
    }
  }

  /** The next slice is the next chunk. */
  lemma {:induction false} SlicedOn(
    before: seq<seq<Row>>, now: seq<seq<Row>>, chunks: seq<seq<Row>>, sent: nat, rows: seq<Row>, offset: nat, b: nat)
    requires offset < |rows| && b > 0 && Sliced(before, now, chunks, sent, rows[offset..], b)
    ensures var len := Min(|rows| - offset, b);
      Sliced(before, now + [rows[offset..offset + len]], chunks, sent + 1, rows[offset + len..], b)
  {
    var len := Min(|rows| - offset, b);
    var slice := rows[offset..offset + len];
    NextChunk(rows[offset..], b);
    assert rows[offset..][..len] == slice && rows[offset..][len..] == rows[offset + len..];
    ShiftBoundary(chunks, sent, slice, Chunks(rows[offset + len..], b));
    Associates(before, chunks[..sent], [slice]);
  }

  /** One turn: poll the flag, then offer the slice. */
  method EmitSlice(run: ScanRun, slice: seq<Row>) returns (more: bool)
    requires slice != []
    modifies run
    ensures run.loads >= old(run.loads) && (old(run.Polled()) ==> run.Polled())
    ensures run.remaining == old(run.remaining)
    ensures old(Consistent(run.State(), run.dropAt)) ==> Consistent(run.State(), run.dropAt)
    ensures run.batches == if more then old(run.batches) + [slice] else old(run.batches)
    ensures !more ==> run.Cancelled() || Refused(run.State(), run.dropAt)
  {
    var stop := run.LoadCancelled();
    if stop {
      return false;
    }
    more := true;
    if |slice| > 0 {
      more := run.Emit(slice);
    }
  }

  /** Slices of at most the batch size; a batch size of zero would never advance. */
  method EmitSlicedBatch(run: ScanRun, rows: seq<Row>)
    requires run.batchSize > 0
    modifies run
    ensures run.loads >= old(run.loads) && (old(run.Polled()) ==> run.Polled())
    ensures run.remaining == old(run.remaining)
    ensures old(Consistent(run.State(), run.dropAt)) ==> Consistent(run.State(), run.dropAt)
    ensures Emitted(
      old(run.batches), run.batches, Chunks(rows, run.batchSize),
      run.Cancelled() || Refused(run.State(), run.dropAt))
  {
    ghost var before, chunks, sent := run.batches, Chunks(rows, run.batchSize), 0;
    var offset := 0;
    while offset < |rows|
      invariant offset <= |rows| && run.remaining == old(run.remaining)
      invariant Sliced(before, run.batches, chunks, sent, rows[offset..], run.batchSize)
      invariant old(Consistent(run.State(), run.dropAt)) ==> Consistent(run.State(), run.dropAt)
      invariant run.loads >= old(run.loads) && (old(run.Polled()) ==> run.Polled())
    {
      var len := Min(|rows| - offset, run.batchSize);
      SlicedSoFar(before, run.batches, chunks, sent, rows[offset..], run.batchSize);
      SlicedOn(before, run.batches, chunks, sent, rows, offset, run.batchSize);
      var more := EmitSlice(run, rows[offset..offset + len]);
      if !more {
        return;
      }
      offset := offset + len;
      sent := sent + 1;
    }
    SlicedSoFar(before, run.batches, chunks, sent, rows[offset..], run.batchSize);
  }

  /** `ranking` holds every match, best first; the collector returns its first k entries. */
  method EmitTopkBatches(run: ScanRun, hasQuery: bool, ranking: seq<Hit>, effectiveTopk: nat)
    returns (r: Result<(), TopkError>, ghost rows: seq<Row>)
    requires run.batchSize > 0
    modifies run
    ensures run.loads >= old(run.loads) && (old(run.Polled()) ==> run.Polled())
    ensures r.Err? <==> effectiveTopk > 0xFFFF_FFFF || (effectiveTopk > 0 && !hasQuery)
    ensures r.Err? ==> run.batches == old(run.batches)
    ensures old(Consistent(run.State(), run.dropAt)) ==> Consistent(run.State(), run.dropAt)
    ensures r.Ok? ==>
      && (var hits := Take(ranking, effectiveTopk);
          if hits == [] then rows == [] else TopkAnswer(rows, hits, effectiveTopk))
      && Emitted(
           old(run.batches), run.batches, Chunks(rows, run.batchSize),
           run.Cancelled() || Refused(run.State(), run.dropAt))
  {
    rows := [];
    if effectiveTopk == 0 {
      return Ok(()), rows;
    }
    if effectiveTopk > U32_MAX {
      return Err(TooManyRows), rows;
    }
    if !hasQuery {
      return Err(NoQuery), rows;
    }
    var hits := Take(ranking, effectiveTopk);
    if hits == [] {
      return Ok(()), rows;
    }
    var reordered := TopkRows(hits, effectiveTopk);
    rows := reordered.value;
    EmitSlicedBatch(run, reordered.value);
    return Ok(()), rows;
  }

  /** The k that is searched for: what was pushed down, or the row limit if that is smaller; it fits the word size. */
  ghost function EffectiveTopk(rowLimit: Option<nat>, topk: nat): nat {
    if rowLimit.Some? && rowLimit.value < topk then rowLimit.value
    else if rowLimit.None? && topk > 0xFFFF_FFFF_FFFF_FFFF then 0xFFFF_FFFF_FFFF_FFFF
    else topk
  }

  /** The rows of a scan: all of them, if there are not more than the word size can count, or the first ones. */
  ghost predicate HoldsWanted(rows: seq<Row>, all: seq<Row>, rowLimit: Option<nat>) {
    && (rowLimit.None? && |all| <= 0xFFFF_FFFF_FFFF_FFFF ==> rows == all)
    && (rowLimit.Some? && rowLimit.value <= |all| ==> rows == all[..rowLimit.value])
    && (rowLimit.Some? && rowLimit.value > |all| ==> rows == all)
  }

  lemma {:induction false} EffectiveIs(rowLimit: Option<nat>, topk: nat)
    ensures EffectiveTopk(rowLimit, topk) == Min(RowBudget(rowLimit), topk)
  {
  }

  lemma {:induction false} BudgetHoldsWanted(all: seq<Row>, rowLimit: Option<nat>)
    ensures HoldsWanted(Take(all, RowBudget(rowLimit)), all, rowLimit)
  {
  }

  /**
   The entry point. Its batches, on a run that is neither cancelled nor refused, hold the top-k answer if a k was
   pushed down, and otherwise the first rows within the row limit.
  */
  method GenerateTantivyTableBatches(
    batchSize: nat, rowLimit: Option<nat>, topk: Option<nat>, segments: seq<Segment>, ranking: seq<Hit>,
    hasQuery: bool, needsScore: bool, blockLen: nat, cancelAt: Option<nat>, dropAt: Option<nat>)
    returns (run: ScanRun, r: Result<(), TopkError>)
    requires batchSize > 0 && blockLen > 0
    requires forall i :: 0 <= i < |segments| ==> ValidSegment(segments[i])
    ensures fresh(run) && run.dropAt == dropAt && run.cancelAt == cancelAt
    ensures cancelAt.None? ==> !run.Cancelled()
    ensures cancelAt.Some? ==> |run.batches| <= run.offers <= cancelAt.value
    ensures dropAt.None? ==> |run.batches| == run.offers
    ensures topk.None? && !run.Cancelled() && |run.batches| == run.offers ==>
      HoldsWanted(Flatten(run.batches), SegmentRows(segments, hasQuery, needsScore), rowLimit)
    ensures topk.None? ==>
      r.Ok? &&
      ScanAnswer(
        Sink(RowBudget(rowLimit), [], 0), run.State(), SegmentRows(segments, hasQuery, needsScore), run.Cancelled(),
        dropAt) &&
      BatchesFit(0, run.batches, batchSize)
    ensures topk.Some? && r.Ok? && !run.Cancelled() && |run.batches| == run.offers ==>
      var k := EffectiveTopk(rowLimit, topk.value);
      var hits := Take(ranking, k);
      if hits == [] then run.batches == []
      else TopkAnswer(Flatten(run.batches), hits, k) && BatchesFit(0, run.batches, batchSize)
    ensures topk.Some? ==>
      var k := EffectiveTopk(rowLimit, topk.value);
      r.Err? <==> k > 0xFFFF_FFFF || (k > 0 && !hasQuery)
  {
    run := new ScanRun(batchSize, rowLimit, cancelAt, dropAt);
    assert Consistent(run.State(), dropAt);
    if topk.Some? {
      var effectiveTopk := Min(run.remaining, topk.value);
      EffectiveIs(rowLimit, topk.value);
      ghost var rows;
      r, rows := EmitTopkBatches(run, hasQuery, ranking, effectiveTopk);
      ChunksCover(rows, batchSize);
      assert [] + Chunks(rows, batchSize) == Chunks(rows, batchSize);
    } else {
      run.EmitSegmentScanBatches(segments, hasQuery, needsScore, blockLen);
      BudgetHoldsWanted(SegmentRows(segments, hasQuery, needsScore), rowLimit);
      r := Ok(());
    }
    RefusedWhen(run.State(), dropAt);
  }
}
