/**
 The stream of one partition as a protocol between three parties.

 A scanner thread produces batches and sends them, blocking, into the raw channel. A forwarder task receives
 them, fills in the document column, and sends the results into the output channel; at the end it waits for the
 scanner and passes on its error. A consumer reads the output channel, or drops the stream: first its receiver,
 then the guard that sets the cancel flag and aborts the forwarder. Both channels hold at most two messages.
*/
module StreamPipeline {
  import opened Prelude

  const CAPACITY := 2

  /** A batch is known by its number: the pipeline never looks inside it. */
  type Batch = nat

  datatype Failure = OpenFailure | ScanFailure | FillFailure(batch: Batch)

  type Item = Result<Batch, Failure>

  /**
   One run: what opening does, what filling in the documents makes of each batch the scanner would produce
   undisturbed, and how its scan ends.
  */
  datatype Run = Run(openFails: bool, filled: seq<Item>, scanFails: bool)

  /** Scanning and Offering count the batches handed over; an offer is a send that may block. */
  datatype Scanner = Idle | Scanning(next: nat) | Offering(next: nat) | Stopped(failed: bool)

  /** `Filling` and `Sending` hold one batch, by its number; `Awaiting` has left the loop. */
  datatype Forwarder =
    | Opening | Receiving | Filling(batch: nat) | Sending(batch: nat) | Awaiting | SendingError(error: Failure)
    | Finished | Aborted

  /** `Dropped` has dropped its receiver but not yet its guard. */
  datatype Consumer = Reading | Ended | Dropped | Gone

  datatype State = State(
    scanner: Scanner, raw: seq<nat>, forwarder: Forwarder, output: seq<Item>, consumer: Consumer,
    received: seq<Item>, cancelled: bool, abortRequested: bool)

  function Initial(): State {
    State(Idle, [], Opening, [], Reading, [], false, false)
  }

  predicate TaskAlive(s: State) {
    !s.forwarder.Finished? && !s.forwarder.Aborted?
  }

  /** The raw receiver lives in the forwarder's frame, from opening until the forwarder returns. */
  predicate RawReceiverAlive(s: State) {
    TaskAlive(s) && !s.forwarder.SendingError?
  }

  predicate OutputReceiverAlive(s: State) {
    s.consumer.Reading?
  }

  /** The scanner has dropped its sender: the channel closes once it is drained. */
  predicate RawClosed(s: State) {
    s.scanner.Stopped?
  }

  // ---------------------------------------------------------------------------
  // Steps
  // ---------------------------------------------------------------------------

  /** Between batches the scanner looks at the cancel flag; it then offers the next batch or ends its scan. */
  ghost predicate ScanStep(run: Run, s: State, t: State) {
    && s.scanner.Scanning?
    && (|| (s.cancelled && t == s.(scanner := Stopped(false)))
        || (s.scanner.next < |run.filled| && t == s.(scanner := Offering(s.scanner.next)))
        || (s.scanner.next >= |run.filled| && t == s.(scanner := Stopped(run.scanFails))))
  }

  /** A blocking send: it waits while the receiver is alive and the channel is full. */
  ghost predicate OfferStep(run: Run, s: State, t: State) {
    && s.scanner.Offering?
    && (if RawReceiverAlive(s) then
          |s.raw| < CAPACITY &&
          t == s.(scanner := Scanning(s.scanner.next + 1), raw := s.raw + [s.scanner.next])
        else t == s.(scanner := Stopped(false)))
  }

  ghost predicate OpenStep(run: Run, s: State, t: State) {
    && s.forwarder.Opening?
    && t == if run.openFails then s.(forwarder := SendingError(OpenFailure))
            else s.(forwarder := Receiving, scanner := Scanning(0))
  }

  ghost predicate ReceiveStep(run: Run, s: State, t: State) {
    && s.forwarder.Receiving?
    && (if s.raw != [] then t == s.(forwarder := Filling(s.raw[0]), raw := s.raw[1..])
        else RawClosed(s) && t == s.(forwarder := Awaiting))
  }

  ghost predicate FillStep(run: Run, s: State, t: State) {
    && s.forwarder.Filling?
    && t == s.(forwarder := Sending(s.forwarder.batch))
  }

  /** A send waits for room; once the output receiver is gone it fails and the loop is left. */
  ghost predicate SendStep(run: Run, s: State, t: State) {
    && s.forwarder.Sending?
    && s.forwarder.batch < |run.filled|
    && (if OutputReceiverAlive(s) then
          |s.output| < CAPACITY &&
          t == s.(forwarder := Receiving, output := s.output + [run.filled[s.forwarder.batch]])
        else t == s.(forwarder := Awaiting))
  }

  ghost predicate JoinStep(run: Run, s: State, t: State) {
    && s.forwarder.Awaiting?
    && s.scanner.Stopped?
    && t == s.(forwarder := if s.scanner.failed then SendingError(ScanFailure) else Finished, raw := [])
  }

  ghost predicate SendErrorStep(run: Run, s: State, t: State) {
    && s.forwarder.SendingError?
    && (if OutputReceiverAlive(s) then
          |s.output| < CAPACITY && t == s.(forwarder := Finished, output := s.output + [Err(s.forwarder.error)])
        else t == s.(forwarder := Finished))
  }

  /** A requested abort takes effect when the forwarder next yields; its frame, with the raw receiver, is dropped. */
  ghost predicate AbortStep(run: Run, s: State, t: State) {
    && s.abortRequested
    && TaskAlive(s)
    && t == s.(forwarder := Aborted, raw := [])
  }

  /** The consumer takes the next item, or sees the end of the stream once the forwarder has dropped its sender. */
  ghost predicate ReadStep(run: Run, s: State, t: State) {
    && s.consumer.Reading?
    && (if s.output != [] then t == s.(received := s.received + [s.output[0]], output := s.output[1..])
        else !TaskAlive(s) && t == s.(consumer := Ended))
  }

  /** The consumer may drop the stream at any time: the receiver goes first, with what it holds. */
  ghost predicate DropStep(run: Run, s: State, t: State) {
    && s.consumer.Reading?
    && t == s.(consumer := Dropped, output := [])
  }

  /** The guard goes second. */
  ghost predicate GuardStep(run: Run, s: State, t: State) {
    && (s.consumer.Dropped? || s.consumer.Ended?)
    && t == s.(consumer := Gone, cancelled := true, abortRequested := true)
  }

  /** Every step but the consumer's free choice to drop the stream. */
  ghost predicate DrivenStep(run: Run, s: State, t: State) {
    || ScanStep(run, s, t) || OfferStep(run, s, t)
    || OpenStep(run, s, t) || ReceiveStep(run, s, t) || FillStep(run, s, t) || SendStep(run, s, t)
    || JoinStep(run, s, t) || SendErrorStep(run, s, t) || AbortStep(run, s, t)
    || ReadStep(run, s, t) || GuardStep(run, s, t)
  }

  ghost predicate Step(run: Run, s: State, t: State) {
    DrivenStep(run, s, t) || DropStep(run, s, t)
  }

  /** A finite execution from the initial state. */
  ghost predicate Execution(run: Run, trace: seq<State>) {
    && trace != [] && trace[0] == Initial()
    && (forall i :: 0 <= i < |trace| - 1 ==> Step(run, trace[i], trace[i + 1]))
  }

  /** Everybody has gone home. */
  predicate Final(s: State) {
    !TaskAlive(s) && (s.scanner.Stopped? || s.scanner.Idle?) && s.consumer.Gone?
  }

  // ---------------------------------------------------------------------------
  // Conservation
  // ---------------------------------------------------------------------------

  /** What a consumer that never drops the stream should see. */
  function Ideal(run: Run): seq<Item> {
    if run.openFails then [Err(OpenFailure)]
    else run.filled + (if run.scanFails then [Err(ScanFailure)] else [])
  }

  function Fill(run: Run, batches: seq<Batch>): (items: seq<Item>)
    requires forall i :: 0 <= i < |batches| ==> batches[i] < |run.filled|
    ensures |items| == |batches| && forall i :: 0 <= i < |batches| ==> items[i] == run.filled[batches[i]]
  {
    seq(|batches|, i requires 0 <= i < |batches| => run.filled[batches[i]])
  }

  /** Batch numbers in the forwarder and the raw channel are numbers of produced batches. */
  ghost predicate Known(run: Run, s: State) {
    && (s.forwarder.Filling? || s.forwarder.Sending? ==> s.forwarder.batch < |run.filled|)
    && (forall i :: 0 <= i < |s.raw| ==> s.raw[i] < |run.filled|)
  }

  /** The batch in the forwarder's hands, if it still is one, and then the raw channel, all filled in. */
  ghost function InFlight(run: Run, s: State): seq<Item>
    requires Known(run, s)
  {
    (if s.forwarder.Filling? || s.forwarder.Sending? then [run.filled[s.forwarder.batch]] else []) + Fill(run, s.raw)
  }

  /** How many batches have left the scanner, when it is still at work. */
  function HandedOver(run: Run, s: State): nat {
    match s.scanner
    case Idle => 0
    case Scanning(next) => next
    case Offering(next) => next
    case Stopped(_) => |run.filled|
  }

  /** Nothing has been lost: items delivered, items waiting and batches in flight are the ones handed over, in order. */
  ghost predicate Intact(run: Run, s: State)
    requires Known(run, s)
  {
    (match s.forwarder
        case Opening => s.received + s.output == []
        case SendingError(OpenFailure) => run.openFails && s.received + s.output == []
        case SendingError(e) =>
          e == ScanFailure && !run.openFails && run.scanFails && s.received + s.output == run.filled
        case Finished => s.received + s.output == Ideal(run)
        case Aborted => false
        case _ =>
          && !run.openFails
          && HandedOver(run, s) <= |run.filled|
          && s.received + s.output + InFlight(run, s) == run.filled[..HandedOver(run, s)])
  }

  ghost predicate Inv(run: Run, s: State) {
    && |s.raw| <= CAPACITY && |s.output| <= CAPACITY
    && Known(run, s)
    && (s.scanner.Idle? ==> s.forwarder.Opening? || !RawReceiverAlive(s)) && (s.forwarder.Opening? ==> s.scanner.Idle?)
    && ((s.scanner.Idle? || !RawReceiverAlive(s)) ==> s.raw == [])
    && (s.scanner.Scanning? ==> s.scanner.next <= |run.filled|)
    && (s.scanner.Offering? ==> s.scanner.next < |run.filled|)
    && (s.forwarder.SendingError? ==> s.scanner.Idle? || s.scanner.Stopped?)
    && (s.forwarder.Finished? ==> s.scanner.Idle? || s.scanner.Stopped?)
    && (s.forwarder.Awaiting? && OutputReceiverAlive(s) ==> s.raw == [] && s.scanner.Stopped?)
    && (s.cancelled <==> s.consumer.Gone?) && (s.abortRequested <==> s.consumer.Gone?)
    && (s.consumer.Ended? ==> s.output == [] && s.forwarder.Finished?)
    && (!s.consumer.Reading? ==> s.output == [])
    && (s.consumer.Reading? || s.consumer.Ended? ==>
          Intact(run, s) && (s.scanner.Stopped? ==> s.scanner.failed == run.scanFails))
    && s.received <= Ideal(run)
  }

  lemma {:induction false} InitHolds(run: Run)
    ensures Inv(run, Initial())
  {
  }

  lemma {:induction false} ScanningKeepsInv(run: Run, s: State, t: State)
    requires Inv(run, s) && ScanStep(run, s, t)
    ensures Inv(run, t)
  {
    assert Known(run, t) && InFlight(run, t) == InFlight(run, s);
  }

  lemma {:induction false} OneMoreInFlight(run: Run, s: State, t: State, n: nat)
    requires Known(run, s) && n < |run.filled| && t.forwarder == s.forwarder && t.raw == s.raw + [n]
    ensures Known(run, t) && InFlight(run, t) == InFlight(run, s) + [run.filled[n]]
  {
    assert Known(run, t) && Fill(run, t.raw) == Fill(run, s.raw) + [run.filled[n]];
  }

  lemma {:induction false} OfferingKeepsInv(run: Run, s: State, t: State)
    requires Inv(run, s) && OfferStep(run, s, t)
    ensures Inv(run, t)
  {
    if RawReceiverAlive(s) {
      var n := s.scanner.next;
      OneMoreInFlight(run, s, t, n);
      assert run.filled[..n + 1] == run.filled[..n] + [run.filled[n]];
      assert t.received + t.output + InFlight(run, t) ==
        s.received + s.output + InFlight(run, s) + [run.filled[n]];
    }
  }

  lemma {:induction false} OpeningKeepsInv(run: Run, s: State, t: State)
    requires Inv(run, s) && OpenStep(run, s, t)
    ensures Inv(run, t)
  {
  }

  lemma {:induction false} ReceivingKeepsInv(run: Run, s: State, t: State)
    requires Inv(run, s) && ReceiveStep(run, s, t)
    ensures Inv(run, t)
  {
    if s.raw != [] {
      assert Fill(run, s.raw) == [run.filled[s.raw[0]]] + Fill(run, t.raw);
    }
    assert Known(run, t) && InFlight(run, t) == InFlight(run, s);
  }

  lemma {:induction false} FillingKeepsInv(run: Run, s: State, t: State)
    requires Inv(run, s) && FillStep(run, s, t)
    ensures Inv(run, t)
  {
    assert Known(run, t) && InFlight(run, t) == InFlight(run, s);
  }

  lemma {:induction false} SendingKeepsInv(run: Run, s: State, t: State)
    requires Inv(run, s) && SendStep(run, s, t)
    ensures Inv(run, t)
  {
    if OutputReceiverAlive(s) {
      assert InFlight(run, s) == [run.filled[s.forwarder.batch]] + InFlight(run, t);
      assert t.received + t.output + InFlight(run, t) == s.received + s.output + InFlight(run, s);
    }
  }

  lemma {:induction false} ClosingKeepsInv(run: Run, s: State, t: State)
    requires Inv(run, s)
    requires JoinStep(run, s, t) || SendErrorStep(run, s, t) || AbortStep(run, s, t)
    ensures Inv(run, t)
  {
    if JoinStep(run, s, t) && s.consumer.Reading? {
      assert s.received + s.output + InFlight(run, s) == s.received + s.output;
      assert run.filled[..|run.filled|] == run.filled;
      assert run.filled + [] == run.filled;
    } else if SendErrorStep(run, s, t) && s.consumer.Reading? {
      assert t.received + t.output == (s.received + s.output) + [Err(s.forwarder.error)];
      assert s.forwarder.error.ScanFailure? || s.forwarder.error.OpenFailure?;
    }
  }

  lemma {:induction false} WaitingItemsAreIdeal(run: Run, s: State)
    requires Inv(run, s) && s.consumer.Reading?
    ensures s.received + s.output <= Ideal(run)
  {
    if !s.forwarder.Opening? && !s.forwarder.SendingError? && !s.forwarder.Finished? {
      assert s.received + s.output <= s.received + s.output + InFlight(run, s);
      assert run.filled[..HandedOver(run, s)] <= run.filled;
    }
  }

  /** Taking an item from the output channel moves it to the ones received. */
  lemma {:induction false} TakingKeepsIntact(run: Run, s: State, t: State)
    requires Known(run, s) && Intact(run, s) && s.output != []
    requires t == s.(received := s.received + [s.output[0]], output := s.output[1..])
    ensures Known(run, t) && Intact(run, t)
  {
    assert t.received + t.output == s.received + s.output;
    assert InFlight(run, t) == InFlight(run, s);
  }

  lemma {:induction false} TakingKeepsInv(run: Run, s: State, t: State)
    requires Inv(run, s) && ReadStep(run, s, t) && s.output != []
    ensures Inv(run, t)
  {
    TakingKeepsIntact(run, s, t);
    WaitingItemsAreIdeal(run, s);
    assert t.received + t.output == s.received + s.output;
    assert t.received <= s.received + s.output;
  }

  lemma {:induction false} ReadingKeepsInv(run: Run, s: State, t: State)
    requires Inv(run, s) && ReadStep(run, s, t)
    ensures Inv(run, t)
  {
    if s.output != [] {
      TakingKeepsInv(run, s, t);
    } else {
      assert InFlight(run, t) == InFlight(run, s);
    }
  }

  lemma {:induction false} LeavingKeepsInv(run: Run, s: State, t: State)
    requires Inv(run, s) && (DropStep(run, s, t) || GuardStep(run, s, t))
    ensures Inv(run, t)
  {
  }

  /** Every step keeps the invariant. */
  lemma {:induction false} StepKeepsInv(run: Run, s: State, t: State)
    requires Inv(run, s) && Step(run, s, t)
    ensures Inv(run, t)
  {
    if ScanStep(run, s, t) {
      ScanningKeepsInv(run, s, t);
    } else if OfferStep(run, s, t) {
      OfferingKeepsInv(run, s, t);
    } else if ReadStep(run, s, t) {
      ReadingKeepsInv(run, s, t);
    } else if DropStep(run, s, t) || GuardStep(run, s, t) {
      LeavingKeepsInv(run, s, t);
    } else if OpenStep(run, s, t) {
      OpeningKeepsInv(run, s, t);
    } else if ReceiveStep(run, s, t) {
      ReceivingKeepsInv(run, s, t);
    } else if FillStep(run, s, t) {
      FillingKeepsInv(run, s, t);
    } else if SendStep(run, s, t) {
      SendingKeepsInv(run, s, t);
    } else {
      ClosingKeepsInv(run, s, t);
    }
  }

  // ---------------------------------------------------------------------------
  // Progress
  // ---------------------------------------------------------------------------

  function ScannerMeasure(run: Run, scanner: Scanner): int {
    match scanner
    case Idle => 6 * |run.filled| + 2
    case Scanning(next) => 6 * (|run.filled| - next) + 1
    case Offering(next) => 6 * (|run.filled| - next)
    case Stopped(_) => 0
  }

  function ForwarderMeasure(forwarder: Forwarder): int {
    match forwarder
    case Opening => 5
    case Receiving => 4
    case Filling(_) => 7
    case Sending(_) => 6
    case Awaiting => 3
    case SendingError(_) => 2
    case Finished => 0
    case Aborted => 0
  }

  function ConsumerMeasure(consumer: Consumer): int {
    match consumer
    case Reading => 3
    case Ended => 2
    case Dropped => 2
    case Gone => 0
  }

  /** Work left: every message weighs less the further it has come. */
  function Measure(run: Run, s: State): int {
    ScannerMeasure(run, s.scanner) + 4 * |s.raw| + ForwarderMeasure(s.forwarder) + |s.output| +
    ConsumerMeasure(s.consumer)
  }

  lemma {:induction false} ScannerStepDecreases(run: Run, s: State, t: State)
    requires Inv(run, s) && (ScanStep(run, s, t) || OfferStep(run, s, t))
    ensures Measure(run, t) < Measure(run, s)
  {
  }

  lemma {:induction false} ForwarderStepDecreases(run: Run, s: State, t: State)
    requires Inv(run, s)
    requires OpenStep(run, s, t) || ReceiveStep(run, s, t) || FillStep(run, s, t) || SendStep(run, s, t)
    ensures Measure(run, t) < Measure(run, s)
  {
  }

  lemma {:induction false} ClosingStepDecreases(run: Run, s: State, t: State)
    requires Inv(run, s) && (JoinStep(run, s, t) || SendErrorStep(run, s, t) || AbortStep(run, s, t))
    ensures Measure(run, t) < Measure(run, s)
  {
  }

  lemma {:induction false} ConsumerStepDecreases(run: Run, s: State, t: State)
    requires Inv(run, s) && (ReadStep(run, s, t) || DropStep(run, s, t) || GuardStep(run, s, t))
    ensures Measure(run, t) < Measure(run, s)
  {
  }

  lemma {:induction false} MeasureIsNatural(run: Run, s: State)
    requires Inv(run, s)
    ensures Measure(run, s) >= 0
  {
  }

  /** Every step, a drop included, leaves less work. */
  lemma {:induction false} StepDecreasesMeasure(run: Run, s: State, t: State)
    requires Inv(run, s) && Step(run, s, t)
    ensures 0 <= Measure(run, t) < Measure(run, s)
  {
    StepKeepsInv(run, s, t);
    MeasureIsNatural(run, t);
    if ScanStep(run, s, t) || OfferStep(run, s, t) {
      ScannerStepDecreases(run, s, t);
    } else if ReadStep(run, s, t) || DropStep(run, s, t) || GuardStep(run, s, t) {
      ConsumerStepDecreases(run, s, t);
    } else if JoinStep(run, s, t) || SendErrorStep(run, s, t) || AbortStep(run, s, t) {
      ClosingStepDecreases(run, s, t);
    } else {
      ForwarderStepDecreases(run, s, t);
    }
  }

  ghost predicate Enabled(run: Run, s: State) {
    exists t :: DrivenStep(run, s, t)
  }

  /** What a reader that finds the output empty is waiting for. */
  ghost function AwaitedStep(run: Run, s: State): State
    requires Inv(run, s) && s.consumer.Reading? && s.output == []
  {
    match s.forwarder
    case Opening =>
      if run.openFails then s.(forwarder := SendingError(OpenFailure))
      else s.(forwarder := Receiving, scanner := Scanning(0))
    case Receiving => (
      if s.raw != [] then s.(forwarder := Filling(s.raw[0]), raw := s.raw[1..])
      else
        match s.scanner
        case Scanning(next) =>
          s.(scanner := if next < |run.filled| then Offering(next) else Stopped(run.scanFails))
        case Offering(next) => s.(scanner := Scanning(next + 1), raw := s.raw + [next])
        case _ => s.(forwarder := Awaiting)
    )
    case Filling(b) => s.(forwarder := Sending(b))
    case Sending(b) => s.(forwarder := Receiving, output := s.output + [run.filled[b]])
    case Awaiting => s.(forwarder := if s.scanner.failed then SendingError(ScanFailure) else Finished, raw := [])
    case SendingError(e) => s.(forwarder := Finished, output := s.output + [Err(e)])
    case _ => s.(consumer := Ended)
  }

  lemma {:induction false} AwaitedStepIsEnabled(run: Run, s: State)
    requires Inv(run, s) && s.consumer.Reading? && s.output == []
    ensures DrivenStep(run, s, AwaitedStep(run, s))
  {
  }

  /** No state is stuck: until everybody has gone home, some step other than a drop is enabled. */
  lemma {:induction false} NeverStuck(run: Run, s: State)
    requires Inv(run, s) && !Final(s)
    ensures Enabled(run, s)
  {
    if s.consumer.Ended? || s.consumer.Dropped? {
      assert DrivenStep(run, s, s.(consumer := Gone, cancelled := true, abortRequested := true));
    } else if s.consumer.Gone? {
      if TaskAlive(s) {
        assert DrivenStep(run, s, s.(forwarder := Aborted, raw := []));
      } else {
        assert DrivenStep(run, s, s.(scanner := Stopped(false)));
      }
    } else if s.output != [] {
      assert DrivenStep(run, s, s.(received := s.received + [s.output[0]], output := s.output[1..]));
    } else {
      AwaitedStepIsEnabled(run, s);
    }
  }

  // ---------------------------------------------------------------------------
  // Whole executions
  // ---------------------------------------------------------------------------

  lemma {:induction false} ExecutionKeepsInv(run: Run, trace: seq<State>, i: nat)
    requires Execution(run, trace) && i < |trace|
    ensures Inv(run, trace[i])
  {
    if i > 0 {
      ExecutionKeepsInv(run, trace, i - 1);
      assert Step(run, trace[i - 1], trace[i - 1 + 1]);
      StepKeepsInv(run, trace[i - 1], trace[i]);
    } else {
      InitHolds(run);
    }
  }

  /** In every execution, at every moment: bounded channels, and a prefix of the ideal stream received. */
  lemma {:induction false} DeliveryIsOrdered(run: Run, trace: seq<State>, i: nat)
    requires Execution(run, trace) && i < |trace|
    ensures |trace[i].raw| <= 2 && |trace[i].output| <= 2
    ensures trace[i].received <= Ideal(run)
    ensures trace[i].consumer.Ended? ==> trace[i].received == Ideal(run)
  {
    ExecutionKeepsInv(run, trace, i);
  }

  /** Before the scan is over, what was read, waits, is in flight or in the raw channel is what was handed over. */
  lemma {:induction false} NothingIsLost(run: Run, trace: seq<State>, i: nat)
    requires Execution(run, trace) && i < |trace|
    requires trace[i].consumer.Reading? && (trace[i].scanner.Scanning? || trace[i].scanner.Offering?)
    ensures var s := trace[i];
      && Known(run, s)
      && s.scanner.next <= |run.filled|
      && s.received + s.output + InFlight(run, s) == run.filled[..s.scanner.next]
  {
    ExecutionKeepsInv(run, trace, i);
  }

  /** One step of an execution: the invariant and less work. */
  lemma {:induction false} ExecutionStep(run: Run, trace: seq<State>, i: nat)
    requires Execution(run, trace) && i + 1 < |trace|
    ensures 0 <= Measure(run, trace[i + 1]) < Measure(run, trace[i])
  {
    ExecutionKeepsInv(run, trace, i);
    assert Step(run, trace[i], trace[i + 1]);
    StepDecreasesMeasure(run, trace[i], trace[i + 1]);
  }

  lemma {:induction false} MeasureFalls(run: Run, trace: seq<State>, i: nat)
    requires Execution(run, trace) && i < |trace|
    ensures 0 <= Measure(run, trace[i]) <= Measure(run, Initial()) - i
  {
    if i == 0 {
    } else {
      MeasureFalls(run, trace, i - 1);
      ExecutionStep(run, trace, i - 1);
    }
  }

  /** Executions are finite: each batch costs at most six steps. */
  lemma {:induction false} ExecutionsAreShort(run: Run, trace: seq<State>)
    requires Execution(run, trace)
    ensures |trace| <= 6 * |run.filled| + 11
  {
    MeasureFalls(run, trace, |trace| - 1);
  }

  lemma {:induction false} LeavingKeepsReceived(run: Run, s: State, t: State)
    requires Step(run, s, t) && t.consumer.Gone?
    ensures t.received == s.received && !s.consumer.Reading?
  {
  }

  /** A stream that is not dropped before its end has delivered everything once the consumer is gone. */
  lemma {:induction false} UndroppedDeliversAll(run: Run, trace: seq<State>, i: nat)
    requires Execution(run, trace) && i < |trace|
    requires forall j :: 0 <= j <= i ==> !trace[j].consumer.Dropped?
    ensures trace[i].consumer.Ended? || trace[i].consumer.Gone? ==> trace[i].received == Ideal(run)
  {
    ExecutionKeepsInv(run, trace, i);
    if i > 0 {
      UndroppedDeliversAll(run, trace, i - 1);
      assert Step(run, trace[i - 1], trace[i - 1 + 1]);
      if trace[i].consumer.Gone? {
        LeavingKeepsReceived(run, trace[i - 1], trace[i]);
      }
    }
  }

  /**
   A maximal execution, one that ends where nothing but a drop is possible, ends with all three parties done; and
   if the consumer never dropped the stream it has read every batch in order, and an error only after them.
  */
  lemma {:induction false} MaximalExecutionsComplete(run: Run, trace: seq<State>)
    requires Execution(run, trace)
    requires !Enabled(run, trace[|trace| - 1])
    ensures Final(trace[|trace| - 1])
    ensures (forall j :: 0 <= j < |trace| ==> !trace[j].consumer.Dropped?) ==>
      trace[|trace| - 1].received == Ideal(run)
  {
    var last := |trace| - 1;
    ExecutionKeepsInv(run, trace, last);
    if !Final(trace[last]) {
      NeverStuck(run, trace[last]);
    }
    if forall j :: 0 <= j < |trace| ==> !trace[j].consumer.Dropped? {
      UndroppedDeliversAll(run, trace, last);
    }
  }

  // ---------------------------------------------------------------------------
  // Cancellation
  // ---------------------------------------------------------------------------

  /** A scanner that sees the flag stops without an error and without another batch. */
  lemma {:induction false} CancelledScannerStops(run: Run, s: State)
    requires s.scanner.Scanning? && s.cancelled
    ensures Step(run, s, s.(scanner := Stopped(false)))
  {
  }

  /** The scanner's looks at the flag see it once it is set; the load is relaxed, so that one could come too early. */
  ghost predicate SeesFlag(trace: seq<State>) {
    forall k :: 0 <= k < |trace| - 1 && trace[k].cancelled && trace[k].scanner.Scanning? ==>
      trace[k + 1].scanner == trace[k].scanner || trace[k + 1].scanner == Stopped(false)
  }

  /** The scanner after the flag was set: what it was, or one batch further, or at its start, or stopped. */
  ghost predicate IsWindingDown(held: Scanner, now: Scanner) {
    || now == held || now.Stopped?
    || (held.Offering? && now == Scanning(held.next + 1))
    || (held.Idle? && now == Scanning(0))
  }

  lemma {:induction false} StepWindsDown(run: Run, s: State, t: State, held: Scanner)
    requires Step(run, s, t) && s.cancelled && IsWindingDown(held, s.scanner)
    requires s.forwarder.Opening? ==> s.scanner.Idle?
    requires s.scanner.Scanning? ==> t.scanner == s.scanner || t.scanner == Stopped(false)
    ensures t.cancelled && IsWindingDown(held, t.scanner)
  {
  }

  lemma {:induction false} NextWindsDown(run: Run, trace: seq<State>, k: nat, held: Scanner)
    requires Execution(run, trace) && SeesFlag(trace) && k + 1 < |trace|
    requires trace[k].cancelled && IsWindingDown(held, trace[k].scanner)
    ensures trace[k + 1].cancelled && IsWindingDown(held, trace[k + 1].scanner)
  {
    ExecutionKeepsInv(run, trace, k);
    StepWindsDown(run, trace[k], trace[k + 1], held);
  }

  /** Once the guard has gone, the batch that is being offered is the last one: no further offer is begun. */
  lemma {:induction false} CancelIsPrompt(run: Run, trace: seq<State>, i: nat, j: nat)
    requires Execution(run, trace) && SeesFlag(trace) && i <= j < |trace| && trace[i].consumer.Gone?
    ensures trace[j].cancelled && IsWindingDown(trace[i].scanner, trace[j].scanner)
    decreases j
  {
    if j == i {
      ExecutionKeepsInv(run, trace, i);
    } else {
      CancelIsPrompt(run, trace, i, j - 1);
      NextWindsDown(run, trace, j - 1, trace[i].scanner);
    }
  }

  /**
   The consumer has dropped its receiver, the forwarder has left its loop and waits for the scanner, and the
   scanner is blocked on a full channel whose receiver the forwarder still holds.
  */
  predicate Deadlocked(s: State) {
    s.consumer.Dropped? && s.forwarder.Awaiting? && s.scanner.Offering? && |s.raw| == CAPACITY
  }

  /** From there the only possible step is the guard's, and after it only the abort, which frees the scanner. */
  lemma {:induction false} OnlyTheGuardUnblocks(run: Run, s: State, t: State)
    requires Inv(run, s) && Deadlocked(s)
    requires Step(run, s, t)
    ensures GuardStep(run, s, t)
    ensures forall u :: Step(run, t, u) ==> AbortStep(run, t, u) && !RawReceiverAlive(u)
    ensures forall u, v :: Step(run, t, u) && Step(run, u, v) ==> Final(v)
  {
  }

  /** Such a state is reached by a scan of four batches that is dropped while the first is being sent. */
  lemma {:induction false} DeadlockIsReachable(run: Run) returns (trace: seq<State>)
    requires !run.openFails && |run.filled| >= 4
    ensures Execution(run, trace) && Deadlocked(trace[|trace| - 1])
  {
    var s0 := Initial();
    var s1 := s0.(forwarder := Receiving, scanner := Scanning(0));
    var s2 := s1.(scanner := Offering(0));
    var s3 := s2.(scanner := Scanning(1), raw := [0]);
    var s4 := s3.(forwarder := Filling(0), raw := []);
    var s5 := s4.(forwarder := Sending(0));
    var s6 := s5.(scanner := Offering(1));
    var s7 := s6.(scanner := Scanning(2), raw := [1]);
    var s8 := s7.(scanner := Offering(2));
    var s9 := s8.(scanner := Scanning(3), raw := [1, 2]);
    var s10 := s9.(scanner := Offering(3));
    var s11 := s10.(consumer := Dropped, output := []);
    var s12 := s11.(forwarder := Awaiting);
    trace := [s0, s1, s2, s3, s4, s5, s6, s7, s8, s9, s10, s11, s12];
    assert OpenStep(run, s0, s1) && ScanStep(run, s1, s2) && OfferStep(run, s2, s3);
    assert ReceiveStep(run, s3, s4) && FillStep(run, s4, s5);
    assert ScanStep(run, s5, s6) && OfferStep(run, s6, s7) && ScanStep(run, s7, s8);
    assert OfferStep(run, s8, s9) && ScanStep(run, s9, s10);
    assert DropStep(run, s10, s11) && SendStep(run, s11, s12);
  }
}
