/** When the bounded log writes: lines queue up; a full queue, a timer, a flush or a close
    schedules a drain; the drain takes the queue batch by batch and settles at the end. Each
    handler runs undivided, and handlers interleave in any order. */
module LogScheduler {
  import opened Basics
  import opened RotatingLog

  /** Where the one drain in flight stands, if there is one. */
  datatype Phase = Idle | LoopHead | Writing(lines: seq<Bytes>) | Settling

  datatype Batch = Batch(lines: seq<Bytes>, written: bool)

  datatype Scheduler = Scheduler(
    queued: seq<Bytes>, queuedBytes: nat, timer: bool, drainScheduled: bool, closed: bool,
    phase: Phase, batches: seq<Batch>)

  datatype Limits = Limits(maxBatchBytes: nat, batchDelayMs: nat)

  datatype Event =
    | WriteLine(line: Bytes)
    | FlushAsked
    | FlushResumed            // the second look a flush takes after the pending drain
    | CloseAsked
    | TimerFires
    | BatchTaken | BatchWritten | BatchFailed | DrainSettled

  const BEGIN := Scheduler([], 0, false, false, false, Idle, [])

  function ScheduleDrain(s: Scheduler): Scheduler {
    if s.drainScheduled || s.queued == [] then s else s.(drainScheduled := true, phase := LoopHead)
  }

  function ArmFlushTimer(s: Scheduler): Scheduler {
    if s.closed || s.timer || s.drainScheduled then s else s.(timer := true)
  }

  /** The asynchronous events are possible only where the program waits for them. */
  predicate Enabled(s: Scheduler, e: Event) {
    match e
    case TimerFires => s.timer
    case BatchTaken => s.phase.LoopHead?
    case BatchWritten => s.phase.Writing?
    case BatchFailed => s.phase.Writing?
    case DrainSettled => s.phase.Settling?
    case _ => true
  }

  function Step(s: Scheduler, e: Event, limits: Limits): Scheduler {
    match e
    case WriteLine(line) =>
      if s.closed then s
      else
        var more := s.(queued := s.queued + [line], queuedBytes := s.queuedBytes + |line|);
        if more.queuedBytes >= limits.maxBatchBytes || limits.batchDelayMs == 0 then ScheduleDrain(more.(timer := false))
        else ArmFlushTimer(more)
    case FlushAsked => ScheduleDrain(s.(timer := false))
    case FlushResumed => ScheduleDrain(s)
    case CloseAsked => if s.closed then s else ScheduleDrain(s.(closed := true, timer := false))
    case TimerFires => ScheduleDrain(s.(timer := false))
    case BatchTaken =>
      if s.queued == [] then s.(phase := Settling)
      else s.(queued := [], queuedBytes := 0, phase := Writing(s.queued))
    case BatchWritten =>
      if s.phase.Writing? then s.(phase := LoopHead, batches := s.batches + [Batch(s.phase.lines, true)]) else s
    case BatchFailed =>
      if s.phase.Writing? then s.(phase := Settling, batches := s.batches + [Batch(s.phase.lines, false)]) else s
    case DrainSettled =>
      var settled := s.(drainScheduled := false, phase := Idle);
      if s.queued == [] then settled
      else if s.closed then ScheduleDrain(settled) else ArmFlushTimer(settled)
  }

  function Run(s: Scheduler, events: seq<Event>, limits: Limits): Scheduler {
    if events == [] then s
    else Step(Run(s, events[..|events| - 1], limits), events[|events| - 1], limits)
  }

  ghost predicate Possible(s: Scheduler, events: seq<Event>, limits: Limits) {
    forall i :: 0 <= i < |events| ==> Enabled(Run(s, events[..i], limits), events[i])
  }

  /** A queue that is not empty has a drain or a timer; a closed writer has no timer. */
  predicate Attended(s: Scheduler) {
    && (s.drainScheduled <==> s.phase != Idle)
    && (s.queued != [] ==> s.drainScheduled || s.timer)
    && (s.closed ==> !s.timer)
  }

  predicate Inv(s: Scheduler) {
    Attended(s) && s.queuedBytes == |Flatten(s.queued)|
  }

  lemma StepKeepsAttended(s: Scheduler, e: Event, limits: Limits)
    requires Attended(s) && Enabled(s, e)
    ensures Attended(Step(s, e, limits))
  {
  }

  lemma StepKeepsCount(s: Scheduler, e: Event, limits: Limits)
    requires s.queuedBytes == |Flatten(s.queued)| && Enabled(s, e)
    ensures Step(s, e, limits).queuedBytes == |Flatten(Step(s, e, limits).queued)|
  {
    if e.WriteLine? {
      FlattenPush(s.queued, e.line);
      assert Step(s, e, limits).queued == if s.closed then s.queued else s.queued + [e.line];
    } else if e.BatchTaken? {
      assert Flatten<Byte>([]) == [];
    }
  }

  lemma StepKeepsInv(s: Scheduler, e: Event, limits: Limits)
    requires Inv(s) && Enabled(s, e)
    ensures Inv(Step(s, e, limits))
  {
    StepKeepsAttended(s, e, limits);
    StepKeepsCount(s, e, limits);
  }

  lemma {:induction false} RunKeepsInv(events: seq<Event>, limits: Limits)
    requires Possible(BEGIN, events, limits)
    ensures Inv(Run(BEGIN, events, limits))
  {
    if events == [] {
    } else {
      var n := |events| - 1;
      forall i | 0 <= i < n ensures Enabled(Run(BEGIN, events[..n][..i], limits), events[..n][i]) {
        assert events[..n][..i] == events[..i];
      }
      RunKeepsInv(events[..n], limits);
      assert Enabled(Run(BEGIN, events[..n], limits), events[n]);
      StepKeepsInv(Run(BEGIN, events[..n], limits), events[n], limits);
    }
  }

  /** In every reachable state a non-empty queue has a drain coming: one is scheduled, or a timer
      is armed that will schedule it; after a close only the former will do. */
  lemma NoLineIsStranded(events: seq<Event>, limits: Limits)
    requires Possible(BEGIN, events, limits)
    ensures var s := Run(BEGIN, events, limits);
            s.queued != [] ==> s.drainScheduled || (s.timer && !s.closed)
  {
    RunKeepsInv(events, limits);
  }

  // ----- nothing lost or reordered on the way -----

  function LinesOf(batches: seq<Batch>): seq<Bytes> {
    if batches == [] then [] else LinesOf(batches[..|batches| - 1]) + batches[|batches| - 1].lines
  }

  /** The lines the writer took in: those offered before it was closed. */
  function Accepted(s: Scheduler, events: seq<Event>, limits: Limits): seq<Bytes> {
    if events == [] then []
    else
      var n := |events| - 1;
      Accepted(s, events[..n], limits) +
      (if events[n].WriteLine? && !Run(s, events[..n], limits).closed then [events[n].line] else [])
  }

  function InFlight(s: Scheduler): seq<Bytes> {
    if s.phase.Writing? then s.phase.lines else []
  }

  /** Batches handed to the file, then the batch being written, then the queue. */
  function Known(s: Scheduler): seq<Bytes> {
    LinesOf(s.batches) + InFlight(s) + s.queued
  }

  lemma LinesOfPush(batches: seq<Batch>, b: Batch)
    ensures LinesOf(batches + [b]) == LinesOf(batches) + b.lines
  {
    assert (batches + [b])[..|batches|] == batches;
  }

  lemma WriteAddsLine(s: Scheduler, line: Bytes, limits: Limits)
    requires Inv(s) && !s.closed
    ensures Known(Step(s, WriteLine(line), limits)) == Known(s) + [line]
  {
    var after := Step(s, WriteLine(line), limits);
    assert after.queued == s.queued + [line] && after.batches == s.batches && InFlight(after) == InFlight(s);
    Assoc(LinesOf(s.batches) + InFlight(s), s.queued, [line]);
  }

  lemma TakeKeepsLines(s: Scheduler, limits: Limits)
    requires s.phase.LoopHead?
    ensures Known(Step(s, BatchTaken, limits)) == Known(s)
  {
    Assoc(LinesOf(s.batches), s.queued, []);
    assert LinesOf(s.batches) + [] == LinesOf(s.batches) && s.queued + [] == s.queued;
  }

  lemma DoneKeepsLines(s: Scheduler, written: bool, limits: Limits)
    requires s.phase.Writing?
    ensures Known(Step(s, if written then BatchWritten else BatchFailed, limits)) == Known(s)
  {
    LinesOfPush(s.batches, Batch(s.phase.lines, written));
    assert LinesOf(s.batches) + s.phase.lines + [] == LinesOf(s.batches) + s.phase.lines;
  }

  predicate Moves(e: Event) {
    e.WriteLine? || e.BatchTaken? || e.BatchWritten? || e.BatchFailed?
  }

  lemma OthersTouchNothing(s: Scheduler, e: Event, limits: Limits)
    requires Inv(s) && Enabled(s, e) && !Moves(e)
    ensures var after := Step(s, e, limits);
            after.queued == s.queued && after.batches == s.batches && InFlight(after) == InFlight(s)
  {
  }

  lemma StepKeepsKnown(s: Scheduler, e: Event, limits: Limits)
    requires Inv(s) && Enabled(s, e)
    ensures Known(Step(s, e, limits)) == Known(s) + if e.WriteLine? && !s.closed then [e.line] else []
  {
    assert Known(s) + [] == Known(s);
    match e
    case WriteLine(line) => if !s.closed { WriteAddsLine(s, line, limits); }
    case BatchTaken => TakeKeepsLines(s, limits);
    case BatchWritten => DoneKeepsLines(s, true, limits);
    case BatchFailed => DoneKeepsLines(s, false, limits);
    case _ => OthersTouchNothing(s, e, limits);
  }

  /** Over every run: the batches handed to the file, the one in flight and the queue are exactly
      the accepted lines, in order. A line is lost only as part of a batch whose write failed. */
  lemma {:induction false} NothingIsLost(events: seq<Event>, limits: Limits)
    requires Possible(BEGIN, events, limits)
    ensures Known(Run(BEGIN, events, limits)) == Accepted(BEGIN, events, limits)
  {
    if events == [] {
    } else {
      var n := |events| - 1;
      PrefixIsPossible(events, limits);
      RunKeepsInv(events[..n], limits);
      NothingIsLost(events[..n], limits);
      StepKeepsKnown(Run(BEGIN, events[..n], limits), events[n], limits);
    }
  }

  lemma PrefixIsPossible(events: seq<Event>, limits: Limits)
    requires events != [] && Possible(BEGIN, events, limits)
    ensures Possible(BEGIN, events[..|events| - 1], limits)
    ensures Enabled(Run(BEGIN, events[..|events| - 1], limits), events[|events| - 1])
  {
    var n := |events| - 1;
    forall i | 0 <= i < n ensures Enabled(Run(BEGIN, events[..n][..i], limits), events[..n][i]) {
      assert events[..n][..i] == events[..i];
    }
  }

  // ----- when the writer writes -----

  /** The drain after each event: a line that fills the queue, or any line without a delay, a flush, the
      timer and a close schedule one when something is queued, and a drain that settles is followed by
      another at once only behind a close. */
  lemma DrainScheduledIff(s: Scheduler, e: Event, limits: Limits)
    requires Inv(s) && Enabled(s, e)
    ensures Step(s, e, limits).drainScheduled <==>
            match e
            case WriteLine(line) =>
              s.drainScheduled || (!s.closed && (|Flatten(s.queued)| + |line| >= limits.maxBatchBytes || limits.batchDelayMs == 0))
            case DrainSettled => s.closed && s.queued != []
            case FlushAsked => s.drainScheduled || s.queued != []
            case FlushResumed => s.drainScheduled || s.queued != []
            case TimerFires => s.drainScheduled || s.queued != []
            case CloseAsked => s.drainScheduled || (!s.closed && s.queued != [])
            case _ => s.drainScheduled
  {
  }

  /** The timer after each event: armed by a line that waits and by a drain that leaves lines to an open
      writer, and taken back by everything that drains at once. */
  lemma TimerArmedIff(s: Scheduler, e: Event, limits: Limits)
    requires Inv(s) && Enabled(s, e)
    ensures Step(s, e, limits).timer <==>
            match e
            case WriteLine(line) =>
              && !s.closed && |Flatten(s.queued)| + |line| < limits.maxBatchBytes && limits.batchDelayMs > 0
              && (s.timer || !s.drainScheduled)
            case DrainSettled => s.timer || (!s.closed && s.queued != [])
            case FlushResumed => s.timer
            case BatchTaken => s.timer
            case BatchWritten => s.timer
            case BatchFailed => s.timer
            case _ => false
  {
  }

  function OutcomeOf(e: Event): seq<bool> {
    if e.BatchWritten? || e.BatchFailed? then [e.BatchWritten?] else []
  }

  /** How the writes ended, in order. */
  function Outcomes(events: seq<Event>): seq<bool> {
    if events == [] then [] else Outcomes(events[..|events| - 1]) + OutcomeOf(events[|events| - 1])
  }

  /** Each batch is on record as its write ended. */
  predicate Recorded(batches: seq<Batch>, outcomes: seq<bool>) {
    |batches| == |outcomes| && forall i :: 0 <= i < |batches| ==> batches[i].written == outcomes[i]
  }

  lemma StepRemembers(s: Scheduler, e: Event, outcomes: seq<bool>, limits: Limits)
    requires Enabled(s, e) && Recorded(s.batches, outcomes)
    ensures Step(s, e, limits).closed <==> s.closed || e.CloseAsked?
    ensures Recorded(Step(s, e, limits).batches, outcomes + OutcomeOf(e))
  {
  }

  lemma CloseIsLastOrBefore(events: seq<Event>)
    requires events != []
    ensures CloseAsked in events <==> CloseAsked in events[..|events| - 1] || events[|events| - 1] == CloseAsked
  {
    assert events == events[..|events| - 1] + [events[|events| - 1]];
  }

  /** Over every run: the writer is closed exactly when a close was asked, and each batch is on record as
      its write ended. */
  lemma {:induction false} RunRemembers(events: seq<Event>, limits: Limits)
    requires Possible(BEGIN, events, limits)
    ensures Run(BEGIN, events, limits).closed <==> CloseAsked in events
    ensures Recorded(Run(BEGIN, events, limits).batches, Outcomes(events))
  {
    if events == [] {
    } else {
      var n := |events| - 1;
      PrefixIsPossible(events, limits);
      RunRemembers(events[..n], limits);
      CloseIsLastOrBefore(events);
      StepRemembers(Run(BEGIN, events[..n], limits), events[n], Outcomes(events[..n]), limits);
    }
  }

  // ----- left alone, the writer comes to rest with nothing queued -----

  /** Events the program brings about itself. */
  predicate Internal(e: Event) {
    e.TimerFires? || e.BatchTaken? || e.BatchWritten? || e.BatchFailed? || e.DrainSettled?
  }

  ghost predicate AtRest(s: Scheduler) {
    forall e :: Internal(e) ==> !Enabled(s, e)
  }

  /** How many internal events can still follow. */
  function Rank(s: Scheduler): nat {
    (if s.queued != [] then 10 else 0) +
    (match s.phase
     case Idle => 0
     case LoopHead => if s.queued != [] then 0 else 4
     case Writing(_) => 6
     case Settling => if s.queued != [] then 3 else 2) +
    (if s.timer then 1 else 0)
  }

  lemma InternalStepShrinks(s: Scheduler, e: Event, limits: Limits)
    requires Inv(s) && Enabled(s, e) && Internal(e)
    ensures Rank(Step(s, e, limits)) < Rank(s)
  {
  }

  lemma {:induction false} RunFromInv(s: Scheduler, events: seq<Event>, limits: Limits)
    requires Inv(s) && Possible(s, events, limits)
    ensures Inv(Run(s, events, limits))
    ensures (forall i :: 0 <= i < |events| ==> Internal(events[i])) ==> Rank(Run(s, events, limits)) + |events| <= Rank(s)
  {
    if events == [] {
    } else {
      var n := |events| - 1;
      forall i | 0 <= i < n ensures Enabled(Run(s, events[..n][..i], limits), events[..n][i]) {
        assert events[..n][..i] == events[..i];
      }
      RunFromInv(s, events[..n], limits);
      assert Enabled(Run(s, events[..n], limits), events[n]);
      StepKeepsInv(Run(s, events[..n], limits), events[n], limits);
      if forall i :: 0 <= i < |events| ==> Internal(events[i]) {
        InternalStepShrinks(Run(s, events[..n], limits), events[n], limits);
      }
    }
  }

  /** If nothing more is written, flushed or closed, the writer comes to rest after at most
      `Rank(s)` events, whatever their order and whatever writes fail. */
  lemma InternalRunsEnd(s: Scheduler, events: seq<Event>, limits: Limits)
    requires Inv(s) && Possible(s, events, limits)
    requires forall i :: 0 <= i < |events| ==> Internal(events[i])
    ensures |events| <= Rank(s) <= 17
  {
    RunFromInv(s, events, limits);
  }

  /** And a writer at rest has handed every accepted line to the file. */
  lemma AtRestNothingWaits(events: seq<Event>, limits: Limits)
    requires Possible(BEGIN, events, limits) && AtRest(Run(BEGIN, events, limits))
    ensures LinesOf(Run(BEGIN, events, limits).batches) == Accepted(BEGIN, events, limits)
  {
    var s := Run(BEGIN, events, limits);
    RunKeepsInv(events, limits);
    NothingIsLost(events, limits);
    assert !Enabled(s, TimerFires) && !Enabled(s, BatchTaken) && !Enabled(s, BatchWritten) && !Enabled(s, DrainSettled);
    assert LinesOf(s.batches) + [] + [] == LinesOf(s.batches);
  }
}
