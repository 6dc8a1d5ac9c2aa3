/** The whole output path of one process: worker batches, the parent's captures, the final read. */
module OutputPipeline {
  import opened Basics
  import opened OutputCapture
  import opened OutputPaging
  import opened WorkerOutput

  /** Some batch of the stream filled a capture on its own. */
  ghost predicate HasFullBatch(posted: seq<Message>, id: string, kind: Kind) {
    exists i :: 0 <= i < |posted| && FullBatch(posted[i], id, kind)
  }

  predicate FullBatch(m: Message, id: string, kind: Kind) {
    m.Data? && m.requestId == id && m.kind == kind && |m.data| >= MAX_CAPTURE_CHARS
  }

  lemma {:induction false} FullBatchIsAll(posted: seq<Message>, id: string, kind: Kind)
    ensures HasFullBatch(posted, id, kind) ==> |Sent(posted, id, kind)| >= MAX_CAPTURE_CHARS
  {
    if HasFullBatch(posted, id, kind) {
      var i :| 0 <= i < |posted| && FullBatch(posted[i], id, kind);
      if i < |posted| - 1 {
        var before := posted[..|posted| - 1];
        assert FullBatch(before[i], id, kind);
        FullBatchIsAll(before, id, kind);
      }
    }
  }

  /** The parent appends each output message of the process to the capture of its stream. */
  method ReceiveOutput(posted: seq<Message>, id: string, stdout: BoundedCapture, stderr: BoundedCapture)
    requires stdout != stderr && stdout.Valid() && stderr.Valid()
    requires stdout.all == "" && stderr.all == "" && !stdout.oversized && !stderr.oversized
    modifies stdout, stderr
    ensures stdout.Valid() && stderr.Valid()
    ensures stdout.all == Sent(posted, id, Stdout) && stderr.all == Sent(posted, id, Stderr)
    ensures stdout.oversized == HasFullBatch(posted, id, Stdout) && stderr.oversized == HasFullBatch(posted, id, Stderr)
  {
    var i := 0;
    while i < |posted|
      invariant 0 <= i <= |posted|
      invariant stdout.Valid() && stderr.Valid()
      invariant stdout.all == Sent(posted[..i], id, Stdout) && stderr.all == Sent(posted[..i], id, Stderr)
      invariant stdout.oversized == HasFullBatch(posted[..i], id, Stdout)
      invariant stderr.oversized == HasFullBatch(posted[..i], id, Stderr)
    {
      NextMessage(posted, i, id, Stdout);
      NextMessage(posted, i, id, Stderr);
      Receive(posted[i], id, stdout, stderr);
      i := i + 1;
    }
    assert posted[..i] == posted;
  }

  lemma NextMessage(posted: seq<Message>, i: nat, id: string, kind: Kind)
    requires i < |posted|
    ensures Sent(posted[..i + 1], id, kind) == Sent(posted[..i], id, kind) + Says(posted[i], id, kind)
    ensures HasFullBatch(posted[..i + 1], id, kind) == (HasFullBatch(posted[..i], id, kind) || FullBatch(posted[i], id, kind))
  {
    var before, after := posted[..i], posted[..i + 1];
    assert after == before + [posted[i]];
    SentPush(before, posted[i], id, kind);
    if FullBatch(posted[i], id, kind) {
      assert FullBatch(after[i], id, kind);
    }
    if HasFullBatch(before, id, kind) {
      var j :| 0 <= j < |before| && FullBatch(before[j], id, kind);
      assert FullBatch(after[j], id, kind);
    }
    if HasFullBatch(after, id, kind) {
      var j :| 0 <= j < |after| && FullBatch(after[j], id, kind);
      assert j < i ==> FullBatch(before[j], id, kind);
    }
  }

  method Receive(m: Message, id: string, stdout: BoundedCapture, stderr: BoundedCapture)
    requires stdout != stderr && stdout.Valid() && stderr.Valid()
    modifies stdout, stderr
    ensures stdout.Valid() && stderr.Valid()
    ensures stdout.all == old(stdout.all) + Says(m, id, Stdout) && stderr.all == old(stderr.all) + Says(m, id, Stderr)
    ensures stdout.oversized == (old(stdout.oversized) || FullBatch(m, id, Stdout))
    ensures stderr.oversized == (old(stderr.oversized) || FullBatch(m, id, Stderr))
  {
    assert stdout.all + "" == stdout.all && stderr.all + "" == stderr.all;
    if m.Data? && m.requestId == id {
      if m.kind == Stdout {
        stdout.Append(m.data);
      } else {
        stderr.Append(m.data);
      }
    }
  }

  /** From the worker's last flush to the first read after exit: output that fits its limit is
      answered whole and exactly as spooled. The answer is flagged as cut, although it is not,
      exactly when one stream came as a single full batch. */
  method ReadFinished(worker: OutputWorker, id: string, pager: OutputPager, key: Key, maxChars: int, looksOpaque: bool, marker: string)
    returns (a: Answer)
    requires worker.Valid() && id in worker.files && key !in pager.outputCursors
    modifies worker`pendingOutput, worker`posted, pager
    ensures worker.Valid()
    ensures Total(worker.files[id]) <= ReadLimit(maxChars) ==> a.Whole? && a.text == worker.files[id]
    ensures Total(worker.files[id]) > ReadLimit(maxChars) ==>
              a == Paged(PageOf(START, worker.files[id], false, maxChars,
                                if looksOpaque || key in old(pager.suppressedBase64Streams) then Some(marker) else None))
    ensures a.Whole? ==> (a.cut <==> HasFullBatch(worker.posted, id, Stdout) || HasFullBatch(worker.posted, id, Stderr))
    ensures a.Whole? && a.cut ==> Total(a.text) == MAX_CAPTURE_CHARS
  {
    worker.FlushAll(id);
    var stdout := new BoundedCapture();
    var stderr := new BoundedCapture();
    ReceiveOutput(worker.posted, id, stdout, stderr);
    assert Sent(worker.posted, id, Stdout) == Pick(worker.files[id], Stdout);
    assert Sent(worker.posted, id, Stderr) == Pick(worker.files[id], Stderr);
    FullBatchIsAll(worker.posted, id, Stdout);
    FullBatchIsAll(worker.posted, id, Stderr);
    a := pager.Read(key, worker.files[id], false, stdout, stderr, maxChars, looksOpaque, marker);
  }
}
