/** Runs of one process's output: it prints, exits, and is read by any number of callers in any
    order and with any limits. A session of a caller lasts from a read that finds no cursor to
    the read that ends it. */
module OutputSessions {
  import opened Basics
  import opened OutputPaging

  /** A session under way: the stored cursor, and everything its pages have said so far. */
  datatype Session = Session(cursor: Cursor, got: Spool)

  datatype Desk = Desk(spool: Spool, running: bool, sessions: map<string, Session>)

  datatype Event = Print(text: Spool) | Exit | Read(callerId: string, maxChars: int)

  function Join2(a: Spool, b: Spool): Spool {
    Spool(a.stdout + b.stdout, a.stderr + b.stderr)
  }

  function SessionOf(d: Desk, callerId: string): Session {
    if callerId in d.sessions then d.sessions[callerId] else Session(START, Spool("", ""))
  }

  function AnswerTo(d: Desk, callerId: string, maxChars: int): Answer {
    AnswerOf(if callerId in d.sessions then Some(d.sessions[callerId].cursor) else None, d.spool, d.running, maxChars, None)
  }

  predicate EndsSession(a: Answer) {
    a.Paged? ==> a.page.stop
  }

  /** All that the caller's session has said once `a` is added. */
  function Heard(d: Desk, callerId: string, a: Answer): Spool {
    if a.Whole? then a.text else Join2(SessionOf(d, callerId).got, a.page.text)
  }

  function Step(d: Desk, e: Event): Desk {
    match e
    case Print(text) => d.(spool := Join2(d.spool, text))
    case Exit => d.(running := false)
    case Read(callerId, maxChars) =>
      var a := AnswerTo(d, callerId, maxChars);
      if EndsSession(a) then d.(sessions := d.sessions - {callerId})
      else d.(sessions := d.sessions[callerId := Session(a.page.end, Heard(d, callerId, a))])
  }

  function Run(d: Desk, events: seq<Event>): Desk
    decreases |events|
  {
    if events == [] then d else Run(Step(d, events[0]), events[1..])
  }

  function UpTo(s: Spool, c: Cursor): Spool
    requires Within(c, s)
  {
    Spool(s.stdout[..c.stdout], s.stderr[..c.stderr])
  }

  /** A session has heard exactly the part of each stream before its cursor: nothing lost, nothing twice. */
  predicate Lossless(x: Session, s: Spool) {
    Within(x.cursor, s) && x.got == UpTo(s, x.cursor)
  }

  ghost predicate Inv(d: Desk) {
    forall c :: c in d.sessions ==> Lossless(d.sessions[c], d.spool)
  }

  lemma PrintKeepsLossless(x: Session, s: Spool, text: Spool)
    requires Lossless(x, s)
    ensures Lossless(x, Join2(s, text))
  {
    assert (s.stdout + text.stdout)[..x.cursor.stdout] == s.stdout[..x.cursor.stdout];
    assert (s.stderr + text.stderr)[..x.cursor.stderr] == s.stderr[..x.cursor.stderr];
  }

  lemma StartIsLossless(s: Spool)
    ensures Lossless(Session(START, Spool("", "")), s)
  {
  }

  /** Whatever the limit: after a read the session has heard each stream up to the new cursor,
      and, if the read ended it, both streams in full. */
  lemma ReadIsLossless(d: Desk, callerId: string, maxChars: int)
    requires Inv(d)
    ensures var a := AnswerTo(d, callerId, maxChars);
            && (a.Paged? ==> Lossless(Session(a.page.end, Heard(d, callerId, a)), d.spool))
            && (EndsSession(a) ==> Heard(d, callerId, a) == d.spool)
  {
    var x := SessionOf(d, callerId);
    StartIsLossless(d.spool);
    assert Lossless(x, d.spool);
    PageIsNext(x.cursor, d.spool, d.running, maxChars);
    assert d.spool.stdout[..|d.spool.stdout|] == d.spool.stdout && d.spool.stderr[..|d.spool.stderr|] == d.spool.stderr;
  }

  lemma StepKeepsInv(d: Desk, e: Event)
    requires Inv(d)
    ensures Inv(Step(d, e))
  {
    match e
    case Print(text) =>
      forall c | c in d.sessions ensures Lossless(d.sessions[c], Join2(d.spool, text)) {
        PrintKeepsLossless(d.sessions[c], d.spool, text);
      }
    case Exit =>
    case Read(callerId, maxChars) =>
      ReadIsLossless(d, callerId, maxChars);
  }

  lemma {:induction false} RunKeepsInv(d: Desk, events: seq<Event>)
    requires Inv(d)
    ensures Inv(Run(d, events))
    decreases |events|
  {
    if events == [] {
    } else {
      StepKeepsInv(d, events[0]);
      RunKeepsInv(Step(d, events[0]), events[1..]);
    }
  }

  /** Over every run from the start of a process: a read is lossless, and one that says stop, or
      answers whole, has given its caller everything printed. */
  lemma EveryReadIsLossless(events: seq<Event>, callerId: string, maxChars: int)
    ensures var d := Run(Desk(Spool("", ""), true, map[]), events);
            var a := AnswerTo(d, callerId, maxChars);
            && (a.Paged? ==> Heard(d, callerId, a).stdout <= d.spool.stdout && Heard(d, callerId, a).stderr <= d.spool.stderr)
            && (EndsSession(a) ==> Heard(d, callerId, a) == d.spool)
  {
    var begin := Desk(Spool("", ""), true, map[]);
    RunKeepsInv(begin, events);
    ReadIsLossless(Run(begin, events), callerId, maxChars);
  }

  // ----- what a run leaves -----

  function PrintOf(e: Event): Spool {
    if e.Print? then e.text else Spool("", "")
  }

  function Printed(events: seq<Event>): Spool {
    if events == [] then Spool("", "") else Join2(PrintOf(events[0]), Printed(events[1..]))
  }

  lemma StepPrints(d: Desk, e: Event, more: Spool)
    ensures Join2(Step(d, e).spool, more) == Join2(d.spool, Join2(PrintOf(e), more))
    ensures Step(d, e).running <==> d.running && e != Exit
  {
    Assoc(d.spool.stdout, PrintOf(e).stdout, more.stdout);
    Assoc(d.spool.stderr, PrintOf(e).stderr, more.stderr);
  }

  /** Over every run the spools are all that was printed, in order, and the process runs until it exits. */
  lemma {:induction false} SpoolIsAllPrinted(d: Desk, events: seq<Event>)
    ensures Run(d, events).spool == Join2(d.spool, Printed(events))
    ensures Run(d, events).running <==> d.running && Exit !in events
    decreases |events|
  {
    if events == [] {
    } else {
      StepPrints(d, events[0], Printed(events[1..]));
      SpoolIsAllPrinted(Step(d, events[0]), events[1..]);
    }
  }

  /** A read touches no session but its caller's, and once it has said all there is, the caller's next
      read begins afresh. */
  lemma ReadLeavesOthers(d: Desk, callerId: string, maxChars: int, other: string)
    ensures var after, a := Step(d, Read(callerId, maxChars)), AnswerTo(d, callerId, maxChars);
            && (other != callerId ==> SessionOf(after, other) == SessionOf(d, other) && (other in after.sessions <==> other in d.sessions))
            && (callerId in after.sessions <==> a.Paged? && !a.page.stop)
            && (a.Paged? && !a.page.stop ==>
                  SessionOf(after, callerId) == Session(a.page.end, Join2(SessionOf(d, callerId).got, a.page.text)))
            && after.spool == d.spool && after.running == d.running
  {
  }

  // ----- how many reads a finished process takes -----

  predicate ReadsOnly(events: seq<Event>) {
    forall i :: 0 <= i < |events| ==> events[i].Read?
  }

  /** What the caller asks for in all. */
  function Asked(events: seq<Event>, callerId: string): nat {
    if events == [] then 0
    else (if events[0].Read? && events[0].callerId == callerId then ReadLimit(events[0].maxChars) else 0) + Asked(events[1..], callerId)
  }

  /** Some read of the caller ends its session. */
  predicate EndsWithin(d: Desk, events: seq<Event>, callerId: string)
    decreases |events|
  {
    events != [] &&
    ((events[0].Read? && events[0].callerId == callerId && EndsSession(AnswerTo(d, callerId, events[0].maxChars))) ||
     EndsWithin(Step(d, events[0]), events[1..], callerId))
  }

  lemma OneFinishedRead(d: Desk, callerId: string, maxChars: int)
    requires Inv(d) && !d.running
    ensures Within(SessionOf(d, callerId).cursor, d.spool)
    ensures var left := Unread(SessionOf(d, callerId).cursor, d.spool);
            var after := SessionOf(Step(d, Read(callerId, maxChars)), callerId);
            && (EndsSession(AnswerTo(d, callerId, maxChars)) <==> left <= ReadLimit(maxChars))
            && (left > ReadLimit(maxChars) ==>
                  Within(after.cursor, d.spool) && Unread(after.cursor, d.spool) == left - ReadLimit(maxChars))
  {
    var x := SessionOf(d, callerId);
    StartIsLossless(d.spool);
    assert Lossless(x, d.spool);
    PageSize(x.cursor, d.spool, false, maxChars);
  }

  /** Once a process has exited, a caller's session ends exactly when the limits it has asked
      for add up to what was unread, whatever other callers read meanwhile. */
  lemma {:induction false} SessionEndsIff(d: Desk, events: seq<Event>, callerId: string)
    requires Inv(d) && !d.running && ReadsOnly(events)
    ensures Within(SessionOf(d, callerId).cursor, d.spool)
    ensures EndsWithin(d, events, callerId) <==> Asked(events, callerId) >= Max(1, Unread(SessionOf(d, callerId).cursor, d.spool))
    decreases |events|
  {
    OneFinishedRead(d, callerId, 1);
    if events == [] {
    } else {
      var e := events[0];
      StepKeepsInv(d, e);
      if e.callerId == callerId {
        OneFinishedRead(d, callerId, e.maxChars);
      }
      SessionEndsIff(Step(d, e), events[1..], callerId);
    }
  }
}
