/** The launcher worker's output path: every chunk goes to its spool file at once and reaches the
    parent in batches, sent when full, when a timer fires, or when the process is over. */
module WorkerOutput {
  import opened Basics
  import opened OutputPaging

  const OUTPUT_BATCH_MAX_CHARS := 256_000

  datatype Kind = Stdout | Stderr

  datatype Pending = Pending(text: Spool, timer: bool)

  datatype Message = Data(requestId: string, kind: Kind, data: string) | Failure(requestId: string, error: string)

  function Pick(s: Spool, kind: Kind): string {
    if kind == Stdout then s.stdout else s.stderr
  }

  function Append(s: Spool, kind: Kind, text: string): Spool {
    if kind == Stdout then s.(stdout := s.stdout + text) else s.(stderr := s.stderr + text)
  }

  /** One stream of one request, as the posted messages tell it. */
  function Sent(posted: seq<Message>, id: string, kind: Kind): string {
    if posted == [] then "" else Sent(posted[..|posted| - 1], id, kind) + Says(posted[|posted| - 1], id, kind)
  }

  function Says(m: Message, id: string, kind: Kind): string {
    if m.Data? && m.requestId == id && m.kind == kind then m.data else ""
  }

  lemma SentPush(posted: seq<Message>, m: Message, id: string, kind: Kind)
    ensures Sent(posted + [m], id, kind) == Sent(posted, id, kind) + Says(m, id, kind)
  {
    assert (posted + [m])[..|posted|] == posted;
  }

  function Emit(posted: seq<Message>, id: string, kind: Kind, data: string): seq<Message> {
    if data == "" then posted else posted + [Data(id, kind, data)]
  }

  /** What a flush posts: the held standard output, then the held standard error. */
  function Flushed(posted: seq<Message>, id: string, text: Spool): seq<Message> {
    Emit(Emit(posted, id, Stdout, text.stdout), id, Stderr, text.stderr)
  }

  lemma EmitSays(posted: seq<Message>, id: string, emitted: Kind, data: string, other: string, kind: Kind)
    ensures Sent(Emit(posted, id, emitted, data), other, kind)
            == Sent(posted, other, kind) + if other == id && emitted == kind then data else ""
  {
    SentPush(posted, Data(id, emitted, data), other, kind);
    assert Sent(posted, other, kind) + "" == Sent(posted, other, kind);
  }

  lemma FlushSays(posted: seq<Message>, id: string, text: Spool, other: string, kind: Kind)
    ensures Sent(Flushed(posted, id, text), other, kind) == Sent(posted, other, kind) + if other == id then Pick(text, kind) else ""
  {
    EmitSays(posted, id, Stdout, text.stdout, other, kind);
    EmitSays(Emit(posted, id, Stdout, text.stdout), id, Stderr, text.stderr, other, kind);
  }

  function Held(pending: map<string, Pending>, id: string): Spool {
    if id in pending then pending[id].text else Spool("", "")
  }

  /** Everything spooled for `id` has been posted or is held, except `rest`, still being queued on `kind`. */
  ghost predicate InStep(posted: seq<Message>, held: Spool, file: Spool, id: string, kind: Kind, rest: string) {
    forall k: Kind :: Sent(posted, id, k) + Pick(held, k) + (if k == kind then rest else "") == Pick(file, k)
  }

  lemma InStepAnyKind(posted: seq<Message>, held: Spool, file: Spool, id: string, kind: Kind, other: Kind)
    requires InStep(posted, held, file, id, kind, "")
    ensures InStep(posted, held, file, id, other, "")
  {
    forall k: Kind ensures Sent(posted, id, k) + Pick(held, k) + "" == Pick(file, k) {
      assert Sent(posted, id, k) + Pick(held, k) + (if k == kind then "" else "") == Pick(file, k);
    }
  }

  lemma FlushInStep(posted: seq<Message>, held: Spool, file: Spool, id: string, kind: Kind, rest: string)
    requires InStep(posted, held, file, id, kind, rest)
    ensures InStep(Flushed(posted, id, held), Spool("", ""), file, id, kind, rest)
  {
    forall k: Kind ensures Sent(Flushed(posted, id, held), id, k) + Pick(Spool("", ""), k) + (if k == kind then rest else "") == Pick(file, k) {
      FlushSays(posted, id, held, id, k);
      assert Sent(posted, id, k) + Pick(held, k) + (if k == kind then rest else "") == Pick(file, k);
      assert Sent(Flushed(posted, id, held), id, k) + Pick(Spool("", ""), k) == Sent(posted, id, k) + Pick(held, k);
    }
  }

  /** Moving the front of what is still to come to the end of what is held changes nothing. */
  lemma MoveFront(sent: string, held: string, rest: string, n: nat)
    requires n <= |rest|
    ensures sent + (held + rest[..n]) + rest[n..] == sent + held + rest
  {
    Assoc(sent + held, rest[..n], rest[n..]);
    Assoc(sent, held, rest[..n]);
    assert rest[..n] + rest[n..] == rest;
  }

  lemma TakeInStep(posted: seq<Message>, held: Spool, file: Spool, id: string, kind: Kind, rest: string, n: nat)
    requires InStep(posted, held, file, id, kind, rest) && n <= |rest|
    ensures InStep(posted, Append(held, kind, rest[..n]), file, id, kind, rest[n..])
  {
    var more := Append(held, kind, rest[..n]);
    forall k: Kind ensures Sent(posted, id, k) + Pick(more, k) + (if k == kind then rest[n..] else "") == Pick(file, k) {
      assert Sent(posted, id, k) + Pick(held, k) + (if k == kind then rest else "") == Pick(file, k);
      if k == kind {
        MoveFront(Sent(posted, id, k), Pick(held, k), rest, n);
      }
    }
  }

  lemma SpoolInStep(posted: seq<Message>, held: Spool, file: Spool, id: string, kind: Kind, text: string)
    requires InStep(posted, held, file, id, kind, "")
    ensures InStep(posted, held, Append(file, kind, text), id, kind, text)
  {
    forall k: Kind ensures Sent(posted, id, k) + Pick(held, k) + (if k == kind then text else "") == Pick(Append(file, kind, text), k) {
      assert Sent(posted, id, k) + Pick(held, k) + (if k == kind then "" else "") == Pick(file, k);
      assert Sent(posted, id, k) + Pick(held, k) + "" == Pick(file, k);
    }
  }

  /** Messages about other requests say nothing about this one. */
  lemma OthersInStep(posted: seq<Message>, batch: Spool, from: string, held: Spool, file: Spool, id: string)
    requires InStep(posted, held, file, id, Stdout, "") && from != id
    ensures InStep(Flushed(posted, from, batch), held, file, id, Stdout, "")
  {
    forall k: Kind ensures Sent(Flushed(posted, from, batch), id, k) + Pick(held, k) + "" == Pick(file, k) {
      FlushSays(posted, from, batch, id, k);
      assert Sent(posted, id, k) + Pick(held, k) + (if k == Stdout then "" else "") == Pick(file, k);
      assert Sent(posted, id, k) + "" == Sent(posted, id, k);
    }
  }

  /** The same of every request in `ids`. */
  ghost predicate AllInStep(posted: seq<Message>, pending: map<string, Pending>, files: map<string, Spool>, ids: set<string>) {
    forall id :: id in files && id in ids ==> InStep(posted, Held(pending, id), files[id], id, Stdout, "")
  }

  lemma FlushKeepsOthers(posted: seq<Message>, pending: map<string, Pending>, files: map<string, Spool>, ids: set<string>, id: string, text: Spool)
    requires AllInStep(posted, pending, files, ids) && id !in ids
    ensures AllInStep(Flushed(posted, id, text), pending - {id}, files, ids)
  {
    forall other | other in files && other in ids
      ensures InStep(Flushed(posted, id, text), Held(pending - {id}, other), files[other], other, Stdout, "")
    {
      OthersInStep(posted, text, id, Held(pending, other), files[other], other);
      assert Held(pending - {id}, other) == Held(pending, other);
    }
  }

  lemma FailureKeepsAll(posted: seq<Message>, pending: map<string, Pending>, files: map<string, Spool>, ids: set<string>, m: Message)
    requires AllInStep(posted, pending, files, ids) && m.Failure?
    ensures AllInStep(posted + [m], pending, files, ids)
  {
    forall id | id in files && id in ids ensures InStep(posted + [m], Held(pending, id), files[id], id, Stdout, "") {
      assert InStep(posted, Held(pending, id), files[id], id, Stdout, "");
      FailureInStep(posted, m, Held(pending, id), files[id], id);
    }
  }

  lemma FailureInStep(posted: seq<Message>, m: Message, held: Spool, file: Spool, id: string)
    requires InStep(posted, held, file, id, Stdout, "") && m.Failure?
    ensures InStep(posted + [m], held, file, id, Stdout, "")
  {
    forall k: Kind ensures Sent(posted + [m], id, k) + Pick(held, k) + (if k == Stdout then "" else "") == Pick(file, k) {
      SentPush(posted, m, id, k);
      assert Sent(posted, id, k) + "" == Sent(posted, id, k);
      assert Sent(posted, id, k) + Pick(held, k) + (if k == Stdout then "" else "") == Pick(file, k);
    }
  }

  lemma FlushKeepsSized(posted: seq<Message>, id: string, text: Spool)
    requires Sized(posted) && |text.stdout| <= OUTPUT_BATCH_MAX_CHARS && |text.stderr| <= OUTPUT_BATCH_MAX_CHARS
    ensures Sized(Flushed(posted, id, text))
  {
  }

  lemma SetThenDrop(pending: map<string, Pending>, id: string, p: Pending)
    ensures pending[id := p] - {id} == pending - {id}
  {
  }

  lemma HoldKeepsOthers(posted: seq<Message>, pending: map<string, Pending>, files: map<string, Spool>, ids: set<string>, id: string, p: Pending)
    requires AllInStep(posted, pending, files, ids) && id !in ids
    ensures AllInStep(posted, pending[id := p], files, ids)
  {
  }

  lemma QueueingDone(posted: seq<Message>, pending: map<string, Pending>, files: map<string, Spool>, id: string, kind: Kind)
    requires id in files && InStep(posted, Held(pending, id), files[id], id, kind, "")
    requires AllInStep(posted, pending, files, files.Keys - {id})
    ensures AllInStep(posted, pending, files, files.Keys)
  {
    InStepAnyKind(posted, Held(pending, id), files[id], id, kind, Stdout);
    forall other | other in files.Keys ensures InStep(posted, Held(pending, other), files[other], other, Stdout, "") {
      if other != id {
        assert other in files.Keys - {id};
      }
    }
  }

  lemma FlushKeepsAll(posted: seq<Message>, pending: map<string, Pending>, files: map<string, Spool>, id: string)
    requires id in files && AllInStep(posted, pending, files, files.Keys)
    ensures var after := Flushed(posted, id, Held(pending, id));
            && AllInStep(after, pending - {id}, files, files.Keys)
            && forall k: Kind :: Sent(after, id, k) == Pick(files[id], k)
  {
    var held := Held(pending, id);
    var after := Flushed(posted, id, held);
    FlushInStep(posted, held, files[id], id, Stdout, "");
    FlushKeepsOthers(posted, pending, files, files.Keys - {id}, id, held);
    QueueingDone(after, pending - {id}, files, id, Stdout);
    forall k: Kind ensures Sent(after, id, k) == Pick(files[id], k) {
      assert Sent(after, id, k) + Pick(Spool("", ""), k) + (if k == Stdout then "" else "") == Pick(files[id], k);
      assert Sent(after, id, k) + "" + "" == Sent(after, id, k);
    }
  }

  /** Posted batches are neither empty nor over the limit. */
  ghost predicate Sized(posted: seq<Message>) {
    forall i :: 0 <= i < |posted| && posted[i].Data? ==> 0 < |posted[i].data| <= OUTPUT_BATCH_MAX_CHARS
  }

  /** A held batch is not empty, is not full, and has a timer that will flush it. */
  predicate Waiting(p: Pending) {
    p.timer && p.text != Spool("", "") && |p.text.stdout| < OUTPUT_BATCH_MAX_CHARS && |p.text.stderr| < OUTPUT_BATCH_MAX_CHARS
  }

  /** Nothing is held but unfull batches whose timers will flush them. */
  ghost predicate AllWaiting(pending: map<string, Pending>) {
    forall id :: id in pending ==> Waiting(pending[id])
  }

  class OutputWorker {
    var children: set<string>                // requests with a live child
    var outputSpools: set<string>            // requests whose spool paths are known
    var files: map<string, Spool>            // the spool files
    var pendingOutput: map<string, Pending>
    var pendingKills: set<string>
    var posted: seq<Message>

    ghost predicate Valid()
      reads this
    {
      && outputSpools <= files.Keys && pendingOutput.Keys <= files.Keys
      && AllInStep(posted, pendingOutput, files, files.Keys)
      && AllWaiting(pendingOutput) && Sized(posted)
    }

    constructor ()
      ensures Valid() && posted == [] && files == map[]
    {
      children, outputSpools, files := {}, {}, map[];
      pendingOutput, pendingKills, posted := map[], {}, [];
    }

    method FlushOutput(id: string)
      modifies this`pendingOutput, this`posted
      ensures pendingOutput == old(pendingOutput) - {id}
      ensures posted == Flushed(old(posted), id, Held(old(pendingOutput), id))
    {
      if id !in pendingOutput {
        return;
      }
      var pending := pendingOutput[id];
      pendingOutput := pendingOutput - {id};
      if pending.text.stdout != "" {
        posted := posted + [Data(id, Stdout, pending.text.stdout)];
      }
      if pending.text.stderr != "" {
        posted := posted + [Data(id, Stderr, pending.text.stderr)];
      }
    }

    /** The flush of the timer, and the one before the terminal message: afterwards what was
        posted of the request is exactly what its spool files hold. */
    method FlushAll(id: string)
      requires Valid() && id in files
      modifies this`pendingOutput, this`posted
      ensures Valid() && pendingOutput == old(pendingOutput) - {id}
      ensures forall k: Kind :: Sent(posted, id, k) == Pick(files[id], k)
    {
      FlushKeepsAll(posted, pendingOutput, files, id);
      if id in pendingOutput {
        FlushKeepsSized(posted, id, pendingOutput[id].text);
      }
      FlushOutput(id);
    }

    /** While `text`, already spooled for `id`, is still being handed on. */
    ghost predicate Queueing(id: string, kind: Kind, text: string)
      reads this
    {
      Others(id) && InStep(posted, Held(pendingOutput, id), files[id], id, kind, text)
    }

    /** What holds of everything but the streams of `id`. */
    ghost predicate Others(id: string)
      reads this
    {
      && outputSpools <= files.Keys && pendingOutput.Keys <= files.Keys && id in files
      && AllInStep(posted, pendingOutput, files, files.Keys - {id})
      && AllWaiting(pendingOutput) && Sized(posted)
    }

    /** Queues what fits one batch. A held batch always has room, so the worker's flush of a full
        batch at this point never happens. */
    method QueueSome(id: string, kind: Kind, text: string) returns (rest: string)
      requires Queueing(id, kind, text) && text != ""
      modifies this`pendingOutput, this`posted
      ensures Queueing(id, kind, rest) && |rest| < |text|
      ensures pendingOutput - {id} == old(pendingOutput) - {id}
    {
      var pending := if id in pendingOutput then pendingOutput[id] else Pending(Spool("", ""), false);
      var room := OUTPUT_BATCH_MAX_CHARS - |Pick(pending.text, kind)|;
      assert room > 0;
      var n := Min(room, |text|);
      TakeInStep(posted, pending.text, files[id], id, kind, text, n);
      pending := pending.(text := Append(pending.text, kind, text[..n]));
      rest := text[n..];
      if |Pick(pending.text, kind)| >= OUTPUT_BATCH_MAX_CHARS {
        SendFull(id, kind, pending, rest);
      } else {
        Hold(id, kind, pending, rest);
      }
    }

    /** The batch is full: it goes at once. */
    method SendFull(id: string, kind: Kind, pending: Pending, ghost rest: string)
      requires Others(id) && InStep(posted, pending.text, files[id], id, kind, rest)
      requires |pending.text.stdout| <= OUTPUT_BATCH_MAX_CHARS && |pending.text.stderr| <= OUTPUT_BATCH_MAX_CHARS
      modifies this`pendingOutput, this`posted
      ensures Queueing(id, kind, rest) && pendingOutput == old(pendingOutput) - {id}
    {
      FlushInStep(posted, pending.text, files[id], id, kind, rest);
      FlushKeepsOthers(posted, pendingOutput, files, files.Keys - {id}, id, pending.text);
      FlushKeepsSized(posted, id, pending.text);
      SetThenDrop(pendingOutput, id, pending);
      pendingOutput := pendingOutput[id := pending];
      FlushOutput(id);
    }

    /** The batch waits, with a timer that will flush it. */
    method Hold(id: string, kind: Kind, pending: Pending, ghost rest: string)
      requires Others(id) && InStep(posted, pending.text, files[id], id, kind, rest)
      requires pending.text != Spool("", "")
      requires |pending.text.stdout| < OUTPUT_BATCH_MAX_CHARS && |pending.text.stderr| < OUTPUT_BATCH_MAX_CHARS
      modifies this`pendingOutput
      ensures Queueing(id, kind, rest) && pendingOutput - {id} == old(pendingOutput) - {id}
    {
      var held := if pending.timer then pending else pending.(timer := true);
      HoldKeepsOthers(posted, pendingOutput, files, files.Keys - {id}, id, held);
      SetThenDrop(pendingOutput, id, held);
      pendingOutput := pendingOutput[id := held];
    }

    /** `appends` says whether the append to the spool file succeeds. */
    method QueueOutput(id: string, kind: Kind, chunk: string, appends: bool)
      requires Valid()
      modifies this`files, this`pendingOutput, this`posted, this`pendingKills
      ensures Valid()
      ensures pendingOutput - {id} == old(pendingOutput) - {id}
      ensures id !in children || chunk == "" ==>
                files == old(files) && posted == old(posted) && pendingOutput == old(pendingOutput) && pendingKills == old(pendingKills)
      ensures id in children && chunk != "" && (id !in outputSpools || !appends) ==>
                && files == old(files) && pendingOutput == old(pendingOutput) && pendingKills == old(pendingKills) + {id}
                && exists error :: posted == old(posted) + [Failure(id, error)]
      ensures id in children && chunk != "" && id in outputSpools && appends ==>
                id in old(files) && files == old(files)[id := Append(old(files)[id], kind, chunk)] && pendingKills == old(pendingKills)
    {
      if id !in children {
        return;
      }
      var text := chunk;
      if text == "" {
        return;
      }
      if id !in outputSpools {
        Fail(id, "output spool missing for process " + id);
        return;
      }
      if !appends {
        Fail(id, "process output spool failed");
        return;
      }
      SpoolChunk(id, kind, text);
      while text != ""
        invariant Queueing(id, kind, text)
        invariant pendingOutput - {id} == old(pendingOutput) - {id} && pendingKills == old(pendingKills)
        invariant id in old(files) && files == old(files)[id := Append(old(files)[id], kind, chunk)]
        decreases |text|
      {
        text := QueueSome(id, kind, text);
      }
      QueueingDone(posted, pendingOutput, files, id, kind);
    }

    /** Without its spool the process may not go on: the parent is told and a kill is requested. */
    method Fail(id: string, error: string)
      requires Valid()
      modifies this`posted, this`pendingKills
      ensures Valid() && posted == old(posted) + [Failure(id, error)] && pendingKills == old(pendingKills) + {id}
    {
      FailureKeepsAll(posted, pendingOutput, files, files.Keys, Failure(id, error));
      posted := posted + [Failure(id, error)];
      pendingKills := pendingKills + {id};
    }

    method SpoolChunk(id: string, kind: Kind, text: string)
      requires Valid() && id in outputSpools
      modifies this`files
      ensures id in old(files) && files == old(files)[id := Append(old(files)[id], kind, text)]
      ensures Queueing(id, kind, text)
    {
      InStepAnyKind(posted, Held(pendingOutput, id), files[id], id, Stdout, kind);
      SpoolInStep(posted, Held(pendingOutput, id), files[id], id, kind, text);
      files := files[id := Append(files[id], kind, text)];
    }
  }
}
