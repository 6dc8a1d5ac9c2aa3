/** The bounded log writer itself: its handlers over the scheduler's fields, and its drain, which
    hands the queue to the rotating file. Its invariant joins the two: what lies on disk is the
    starting content and, batch by batch, what was handed over. */
module BoundedJsonl {
  import opened RotatingLog
  import opened LogScheduler

  /** What reached the disk of each batch: all of it, or, if its write failed, an initial part. */
  ghost predicate Reached(stored: seq<seq<Bytes>>, batches: seq<Batch>) {
    && |stored| == |batches|
    && forall i :: 0 <= i < |batches| ==> stored[i] <= batches[i].lines && (batches[i].written ==> stored[i] == batches[i].lines)
  }

  ghost predicate AllWritten(batches: seq<Batch>) {
    forall i :: 0 <= i < |batches| ==> batches[i].written
  }

  lemma {:induction false} WrittenBatchesReachDisk(stored: seq<seq<Bytes>>, batches: seq<Batch>)
    requires Reached(stored, batches) && AllWritten(batches)
    ensures Flatten(stored) == LinesOf(batches)
  {
    if batches == [] {
    } else {
      var n := |batches| - 1;
      WrittenBatchesReachDisk(stored[..n], batches[..n]);
    }
  }

  class BoundedJsonlWriter {
    const limits: Limits
    const file: RotatingFile
    ghost const startPieces: seq<Bytes>    // what the files held at the start, oldest first
    var queuedLines: seq<Bytes>
    var queuedBytes: nat
    var flushTimer: bool
    var drainScheduled: bool
    var closed: bool
    var phase: Phase
    ghost var batches: seq<Batch>          // handed to the file, in order
    ghost var stored: seq<seq<Bytes>>      // what of each of them is on disk
    ghost var accepted: seq<Bytes>         // every line taken in

    ghost function View(): Scheduler
      reads this
    {
      Scheduler(queuedLines, queuedBytes, flushTimer, drainScheduled, closed, phase, batches)
    }

    /** No line is lost or reordered on its way: accepted lines are handed over, in flight or
        queued, and the files hold the starting content and what was stored of every batch. */
    ghost predicate Valid()
      reads this, file
    {
      && file.Valid() && file.chunkPieces == []
      && Inv(View()) && Known(View()) == accepted
      && Reached(stored, batches) && file.Pieces() == startPieces + Flatten(stored)
    }

    constructor (limits: Limits, file: RotatingFile)
      requires file.Valid() && file.chunkPieces == []
      ensures Valid() && View() == BEGIN && accepted == []
      ensures this.limits == limits && this.file == file && startPieces == file.Pieces()
    {
      this.limits, this.file := limits, file;
      startPieces := file.Pieces();
      queuedLines, queuedBytes := [], 0;
      flushTimer, drainScheduled, closed := false, false, false;
      phase, batches, stored, accepted := Idle, [], [], [];
    }

    /** At rest with no failed write, archives followed by the live file are the starting content
        and every accepted line. */
    lemma AtRestAllIsOnDisk()
      requires Valid() && AtRest(View()) && AllWritten(batches)
      ensures file.Pieces() == startPieces + accepted
      ensures file.OnDisk() == Flatten(startPieces) + Flatten(accepted)
    {
      RestHasHandedOver(View());
      WrittenBatchesReachDisk(stored, batches);
      file.DiskHoldsPieces();
      FlattenConcat(startPieces, accepted);
    }

    /** At any time at all: of every batch an initial part is on disk, all of it unless its write
        failed, with nothing between the batches. */
    lemma DiskIsStoredParts()
      requires Valid()
      ensures file.OnDisk() == Flatten(startPieces) + Flatten(Flatten(stored)) && Reached(stored, batches)
    {
      file.DiskHoldsPieces();
      FlattenConcat(startPieces, Flatten(stored));
    }

    method WriteLine(line: Bytes)
      requires Valid()
      modifies this
      ensures Valid() && View() == Step(old(View()), LogScheduler.WriteLine(line), limits)
      ensures accepted == if old(closed) then old(accepted) else old(accepted) + [line]
      ensures stored == old(stored)
    {
      ghost var before := View();
      Queue(line);
      if !before.closed {
        accepted := accepted + [line];
      }
      assert Inv(View()) && Known(View()) == accepted by {
        StepKeeps(before, LogScheduler.WriteLine(line), limits);
      }
    }

    method Queue(line: Bytes)
      modifies this`queuedLines, this`queuedBytes, this`flushTimer, this`drainScheduled, this`phase
      ensures View() == Step(old(View()), LogScheduler.WriteLine(line), limits)
    {
      if closed {
        return;
      }
      queuedLines := queuedLines + [line];
      queuedBytes := queuedBytes + |line|;
      if queuedBytes >= limits.maxBatchBytes || limits.batchDelayMs == 0 {
        ClearFlushTimer();
        ScheduleDrain();
        return;
      }
      ArmFlushTimer();
    }

    /** The part of a flush before it waits for the pending drain. */
    method BeginFlush()
      requires Valid()
      modifies this
      ensures Valid() && View() == Step(old(View()), FlushAsked, limits) && accepted == old(accepted) && stored == old(stored)
    {
      ghost var before := View();
      ClearFlushTimer();
      ScheduleDrain();
      assert View() == Step(before, FlushAsked, limits);
      assert Inv(View()) && Known(View()) == accepted by {
        StepKeeps(before, FlushAsked, limits);
      }
    }

    /** The part after it. */
    method ResumeFlush()
      requires Valid()
      modifies this
      ensures Valid() && View() == Step(old(View()), FlushResumed, limits) && accepted == old(accepted) && stored == old(stored)
    {
      ghost var before := View();
      if queuedLines != [] {
        ScheduleDrain();
      }
      assert View() == Step(before, FlushResumed, limits);
      assert Inv(View()) && Known(View()) == accepted by {
        StepKeeps(before, FlushResumed, limits);
      }
    }

    method BeginClose()
      requires Valid()
      modifies this
      ensures Valid() && View() == Step(old(View()), CloseAsked, limits) && accepted == old(accepted) && stored == old(stored)
      ensures closed
    {
      if closed {
        return;
      }
      ghost var before := View();
      closed := true;
      ClearFlushTimer();
      ScheduleDrain();
      assert View() == Step(before, CloseAsked, limits);
      assert Inv(View()) && Known(View()) == accepted by {
        StepKeeps(before, CloseAsked, limits);
      }
    }

    /** The part of a close after the pending drain: the handle goes, and nothing else changes. */
    method FinishClose()
      requires Valid() && closed && !phase.Writing?
      modifies file
      ensures Valid() && !file.open && View() == old(View()) && accepted == old(accepted) && stored == old(stored)
      ensures file.OnDisk() == old(file.OnDisk()) && file.archives == old(file.archives) && file.live == old(file.live)
    {
      if file.open {
        file.CloseHandle();
      }
    }

    method ArmFlushTimer()
      modifies this`flushTimer
      ensures View() == LogScheduler.ArmFlushTimer(old(View()))
    {
      if closed || flushTimer || drainScheduled {
        return;
      }
      flushTimer := true;
    }

    method OnFlushTimer()
      requires Valid() && flushTimer
      modifies this
      ensures Valid() && View() == Step(old(View()), TimerFires, limits) && accepted == old(accepted) && stored == old(stored)
    {
      ghost var before := View();
      flushTimer := false;
      ScheduleDrain();
      assert View() == Step(before, TimerFires, limits);
      assert Inv(View()) && Known(View()) == accepted by {
        StepKeeps(before, TimerFires, limits);
      }
    }

    method ClearFlushTimer()
      modifies this`flushTimer
      ensures View() == old(View()).(timer := false)
    {
      if !flushTimer {
        return;
      }
      flushTimer := false;
    }

    method ScheduleDrain()
      modifies this`drainScheduled, this`phase
      ensures View() == LogScheduler.ScheduleDrain(old(View()))
    {
      if drainScheduled || queuedLines == [] {
        return;
      }
      drainScheduled := true;
      phase := LoopHead;
    }

    /** The head of the drain's loop: take the whole queue, or be done. */
    method TakeBatch()
      requires Valid() && phase == LoopHead
      modifies this
      ensures Valid() && View() == Step(old(View()), BatchTaken, limits) && accepted == old(accepted) && stored == old(stored)
    {
      ghost var before := View();
      if queuedLines == [] {
        phase := Settling;
      } else {
        var lines := queuedLines;
        queuedLines := [];
        queuedBytes := 0;
        phase := Writing(lines);
      }
      assert View() == Step(before, BatchTaken, limits);
      assert Inv(View()) && Known(View()) == accepted by {
        StepKeeps(before, BatchTaken, limits);
      }
    }

    /** The batch is written. */
    method WriteTakenBatch()
      requires Valid() && phase.Writing?
      modifies this, file
      ensures Valid() && View() == Step(old(View()), BatchWritten, limits) && accepted == old(accepted)
      ensures stored == old(stored) + [old(phase.lines)]
      ensures file.OnDisk() == old(file.OnDisk()) + Flatten(old(phase.lines))
    {
      var lines := phase.lines;
      StoreOne(startPieces, stored, lines);
      file.WriteBatch(lines);
      RecordBatch(true, lines);
    }

    /** The write fails after the first `n` lines are on disk: the rest of the batch is lost. */
    method FailTakenBatch(n: nat)
      requires Valid() && phase.Writing? && n <= |phase.lines|
      modifies this, file
      ensures Valid() && View() == Step(old(View()), BatchFailed, limits) && accepted == old(accepted)
      ensures stored == old(stored) + [old(phase.lines)[..n]]
      ensures file.OnDisk() == old(file.OnDisk()) + Flatten(old(phase.lines)[..n])
    {
      var lines := phase.lines[..n];
      StoreOne(startPieces, stored, lines);
      file.WriteBatch(lines);
      RecordBatch(false, lines);
    }

    /** The drain goes on after a written batch and ends after a failed one. */
    method RecordBatch(written: bool, lines: seq<Bytes>)
      requires phase.Writing? && Inv(View()) && Known(View()) == accepted && Reached(stored, batches)
      requires lines <= phase.lines && (written ==> lines == phase.lines)
      modifies this`phase, this`batches, this`stored
      ensures View() == Step(old(View()), if written then BatchWritten else BatchFailed, limits)
      ensures Inv(View()) && Known(View()) == accepted && Reached(stored, batches) && stored == old(stored) + [lines]
    {
      ghost var before := View();
      batches, stored := batches + [Batch(phase.lines, written)], stored + [lines];
      phase := if written then LoopHead else Settling;
      assert View() == Step(before, if written then BatchWritten else BatchFailed, limits);
      assert Inv(View()) && Known(View()) == accepted by {
        StepKeeps(before, if written then BatchWritten else BatchFailed, limits);
      }
    }

    /** What follows the drain, however it ended. */
    method SettleDrain()
      requires Valid() && phase == Settling
      modifies this
      ensures Valid() && View() == Step(old(View()), DrainSettled, limits) && accepted == old(accepted) && stored == old(stored)
    {
      ghost var before := View();
      drainScheduled := false;
      phase := Idle;
      if queuedLines != [] {
        if closed {
          ScheduleDrain();
        } else {
          ArmFlushTimer();
        }
      }
      assert View() == Step(before, DrainSettled, limits);
      assert Inv(View()) && Known(View()) == accepted by {
        StepKeeps(before, DrainSettled, limits);
      }
    }

    /** A drain that nothing interrupts puts the whole queue on disk behind what was there. */
    method DrainQueued()
      requires Valid() && phase == LoopHead
      modifies this, file
      ensures Valid() && queuedLines == [] && phase == Settling && accepted == old(accepted)
      ensures file.OnDisk() == old(file.OnDisk()) + Flatten(old(queuedLines))
      ensures flushTimer == old(flushTimer) && drainScheduled == old(drainScheduled) && closed == old(closed)
    {
      assert file.OnDisk() + [] == file.OnDisk();
      while queuedLines != []
        invariant Valid() && phase == LoopHead && accepted == old(accepted)
        invariant file.OnDisk() + Flatten(queuedLines) == old(file.OnDisk()) + Flatten(old(queuedLines))
        invariant flushTimer == old(flushTimer) && drainScheduled == old(drainScheduled) && closed == old(closed)
        decreases |queuedLines|
      {
        DrainOnce();
      }
      assert file.OnDisk() + Flatten(queuedLines) == file.OnDisk();
      TakeBatch();
    }

    method DrainOnce()
      requires Valid() && phase == LoopHead && queuedLines != []
      modifies this, file
      ensures Valid() && phase == LoopHead && queuedLines == [] && accepted == old(accepted)
      ensures file.OnDisk() + Flatten(queuedLines) == old(file.OnDisk()) + Flatten(old(queuedLines))
      ensures flushTimer == old(flushTimer) && drainScheduled == old(drainScheduled) && closed == old(closed)
    {
      TakeBatch();
      WriteTakenBatch();
      assert file.OnDisk() + [] == file.OnDisk();
    }
  }

  lemma StepKeeps(s: Scheduler, e: Event, limits: Limits)
    requires Inv(s) && Enabled(s, e)
    ensures Inv(Step(s, e, limits))
    ensures Known(Step(s, e, limits)) == if e.WriteLine? && !s.closed then Known(s) + [e.line] else Known(s)
  {
    StepKeepsInv(s, e, limits);
    StepKeepsKnown(s, e, limits);
    assert Known(s) + [] == Known(s);
  }

  lemma StoreOne(start: seq<Bytes>, stored: seq<seq<Bytes>>, lines: seq<Bytes>)
    ensures start + Flatten(stored + [lines]) == start + Flatten(stored) + lines
  {
    FlattenPush(stored, lines);
    assert start + (Flatten(stored) + lines) == start + Flatten(stored) + lines;
  }

  lemma RestHasHandedOver(s: Scheduler)
    requires Inv(s) && AtRest(s)
    ensures LinesOf(s.batches) == Known(s)
  {
    assert !Enabled(s, TimerFires) && !Enabled(s, BatchTaken) && !Enabled(s, BatchWritten) && !Enabled(s, DrainSettled);
    assert LinesOf(s.batches) + [] + [] == LinesOf(s.batches);
  }
}
