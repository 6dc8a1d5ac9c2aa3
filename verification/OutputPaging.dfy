/** Cursor paging of a process's output spools, and the answer one read gives. */
module OutputPaging {
  import opened Basics
  import opened OutputCapture

  /** How much of each stream a caller has been given. */
  datatype Cursor = Cursor(stdout: nat, stderr: nat)

  const START := Cursor(0, 0)

  datatype Spool = Spool(stdout: string, stderr: string)

  datatype Page = Page(text: Spool, start: Cursor, end: Cursor, limit: nat, more: bool, stop: bool)

  datatype Key = Key(processId: string, callerId: string)

  predicate Within(c: Cursor, s: Spool) {
    c.stdout <= |s.stdout| && c.stderr <= |s.stderr|
  }

  function Total(s: Spool): nat {
    |s.stdout| + |s.stderr|
  }

  function Clip(c: Cursor, s: Spool): (r: Cursor)
    ensures Within(r, s) && (Within(c, s) ==> r == c)
  {
    Cursor(Min(c.stdout, |s.stdout|), Min(c.stderr, |s.stderr|))
  }

  function ReadLimit(requested: int): (limit: nat)
    ensures 1 <= limit <= MAX_READ_CHARS
  {
    Allowance(requested, MAX_READ_CHARS)
  }

  /** The page from `c`: standard output first, standard error in what room is left. With a
      marker the rest of standard output is skipped and the marker stands for it. */
  function PageOf(c: Cursor, s: Spool, running: bool, requested: int, marker: Option<string>): Page
    requires Within(c, s)
  {
    var limit := ReadLimit(requested);
    var skip := marker.Some? && c.stdout < |s.stdout|;
    var outEnd := if skip then |s.stdout| else c.stdout + Min(limit, |s.stdout| - c.stdout);
    var out := if skip then marker.value else s.stdout[c.stdout..outEnd];
    var errEnd := c.stderr + Min(Max(0, limit - |out|), |s.stderr| - c.stderr);
    var more := outEnd < |s.stdout| || errEnd < |s.stderr|;
    Page(Spool(out, s.stderr[c.stderr..errEnd]), c, Cursor(outEnd, errEnd), limit, more, !more && !running)
  }

  /** Exactly when a page keeps to its limit: always, except for a marker longer than the limit. */
  lemma PageFitsIff(c: Cursor, s: Spool, running: bool, requested: int, marker: Option<string>)
    requires Within(c, s)
    ensures var page := PageOf(c, s, running, requested, marker);
            Total(page.text) <= page.limit <==>
            !(marker.Some? && c.stdout < |s.stdout| && |marker.value| > ReadLimit(requested))
  {
  }

  /** An unmarked page is exactly the next part of each stream, standard error only behind all of
      standard output, and not empty while anything is unread. */
  lemma PageIsNext(c: Cursor, s: Spool, running: bool, requested: int)
    requires Within(c, s)
    ensures var page := PageOf(c, s, running, requested, None);
            && Within(page.end, s)
            && s.stdout[..c.stdout] + page.text.stdout == s.stdout[..page.end.stdout]
            && s.stderr[..c.stderr] + page.text.stderr == s.stderr[..page.end.stderr]
            && (c != Cursor(|s.stdout|, |s.stderr|) ==> Total(page.text) > 0)
            && (page.more <==> page.end != Cursor(|s.stdout|, |s.stderr|)) && (page.stop <==> !page.more && !running)
            && (page.text.stderr != "" ==> page.end.stdout == |s.stdout|)
            && page.start == c && Total(page.text) == page.end.stdout - c.stdout + page.end.stderr - c.stderr
  {
  }

  /** A marker stands for the whole rest of standard output; standard error takes what room it leaves. */
  lemma MarkedPage(c: Cursor, s: Spool, running: bool, requested: int, marker: string)
    requires Within(c, s) && c.stdout < |s.stdout|
    ensures var page := PageOf(c, s, running, requested, Some(marker));
            && page.text.stdout == marker && page.end.stdout == |s.stdout| && Within(page.end, s)
            && s.stderr[..c.stderr] + page.text.stderr == s.stderr[..page.end.stderr]
            && (page.end.stderr < |s.stderr| ==> |page.text.stderr| == Max(0, page.limit - |marker|))
            && Total(page.text) <= Max(page.limit, |marker|)
            && (page.stop <==> page.end.stderr == |s.stderr| && !running)
  {
  }

  function Unread(c: Cursor, s: Spool): nat
    requires Within(c, s)
  {
    Total(s) - c.stdout - c.stderr
  }

  /** An unmarked page is as long as its limit allows, so it ends the output exactly when the limit covers it. */
  lemma PageSize(c: Cursor, s: Spool, running: bool, requested: int)
    requires Within(c, s)
    ensures var page := PageOf(c, s, running, requested, None);
            && Within(page.end, s)
            && Unread(page.end, s) == Max(0, Unread(c, s) - page.limit)
            && (page.more <==> Unread(page.end, s) > 0)
            && page.limit == (if requested < 1 then 1 else if requested > 256_000 then 256_000 else requested)
  {
  }

  /** What one read answers: a page, or, for a finished process whose output fits, all of it. */
  datatype Answer = Paged(page: Page) | Whole(text: Spool, cut: bool)

  function NeedsPaging(cursor: Option<Cursor>, s: Spool, running: bool, maxChars: int): bool {
    running || cursor.Some? || Total(s) > ReadLimit(maxChars)
  }

  function PriorCursor(cursor: Option<Cursor>): Cursor {
    if cursor.Some? then cursor.value else START
  }

  function AnswerOf(cursor: Option<Cursor>, s: Spool, running: bool, maxChars: int, marker: Option<string>): Answer {
    if NeedsPaging(cursor, s, running, maxChars) then Paged(PageOf(Clip(PriorCursor(cursor), s), s, running, maxChars, marker))
    else Whole(s, false)
  }

  /** Without a marker a read ends the caller's output exactly when the process is over and the limit
      covers what the caller has not read; it is answered whole only if no page went before. */
  lemma AnswerEndsIff(cursor: Option<Cursor>, s: Spool, running: bool, maxChars: int)
    ensures var a, c := AnswerOf(cursor, s, running, maxChars, None), Clip(PriorCursor(cursor), s);
            && (a.Whole? || a.page.stop <==> !running && Unread(c, s) <= ReadLimit(maxChars))
            && (a.Whole? <==> !running && cursor.None? && Total(s) <= ReadLimit(maxChars))
            && (a.Whole? ==> a.text == s && !a.cut)
            && (a.Paged? ==> a.page.start == c)
  {
    PageSize(Clip(PriorCursor(cursor), s), s, running, maxChars);
  }

  /** With nothing of standard output unread, a marker changes nothing. */
  lemma IdleMarker(c: Cursor, s: Spool, running: bool, requested: int, hidden: bool, marker: string)
    requires Within(c, s)
    ensures PageOf(c, s, running, requested, if hidden && |s.stdout| > c.stdout then Some(marker) else None)
            == PageOf(c, s, running, requested, if hidden then Some(marker) else None)
  {
  }

  /** Cuts one page; a marker, given only while standard output is unread, replaces the rest of it. */
  method CutPage(cursor: Cursor, s: Spool, running: bool, requestedChars: int, suppressStdout: bool, marker: string)
    returns (page: Page)
    requires Within(cursor, s) && (suppressStdout ==> cursor.stdout < |s.stdout|)
    ensures page == PageOf(cursor, s, running, requestedChars, if suppressStdout then Some(marker) else None)
  {
    var stdoutTotal, stderrTotal := |s.stdout|, |s.stderr|;
    var limit := Max(1, Min(requestedChars, MAX_READ_CHARS));
    var stdoutRemaining := Max(0, stdoutTotal - cursor.stdout);
    var stdoutText := if suppressStdout then marker
                      else s.stdout[cursor.stdout..cursor.stdout + Min(limit, stdoutRemaining)];
    var stdoutConsumed := if suppressStdout then stdoutRemaining else Min(limit, stdoutRemaining);
    var stderrBudget := Max(0, limit - |stdoutText|);
    var stderrCount := Min(stderrBudget, Max(0, stderrTotal - cursor.stderr));
    var stderrText := s.stderr[cursor.stderr..cursor.stderr + stderrCount];
    var next := Cursor(cursor.stdout + stdoutConsumed, cursor.stderr + stderrCount);
    var moreCaptured := next.stdout < stdoutTotal || next.stderr < stderrTotal;
    page := Page(Spool(stdoutText, stderrText), cursor, next, limit, moreCaptured, !moreCaptured && !running);
  }

  /** Output that fits its limit is answered whole from the in-memory tails. */
  lemma TailsHoldAll(s: Spool, limit: nat)
    requires 1 <= limit <= MAX_READ_CHARS && Total(s) <= limit
    ensures LastN(LastN(s.stdout, MAX_CAPTURE_CHARS), Allowance(limit, MAX_READ_CHARS)) == s.stdout
    ensures LastN(LastN(s.stderr, MAX_CAPTURE_CHARS), Allowance(limit, MAX_READ_CHARS)) == s.stderr
  {
  }

  /** A paged answer, cut with the limit already clamped. */
  lemma PagedAnswer(cursor: Option<Cursor>, s: Spool, running: bool, maxChars: int, marker: Option<string>)
    requires NeedsPaging(cursor, s, running, maxChars)
    ensures AnswerOf(cursor, s, running, maxChars, marker)
            == Paged(PageOf(Clip(PriorCursor(cursor), s), s, running, ReadLimit(maxChars), marker))
  {
    assert ReadLimit(ReadLimit(maxChars)) == ReadLimit(maxChars);
  }

  /** The unpaged answer: the whole of both streams. It is marked as cut, although nothing is
      missing, exactly when one of them arrived as a single message that filled its capture. */
  method AnswerFromTails(s: Spool, stdout: BoundedCapture, stderr: BoundedCapture, limit: nat) returns (a: Answer)
    requires stdout.Valid() && stderr.Valid() && stdout.all == s.stdout && stderr.all == s.stderr
    requires 1 <= limit <= MAX_READ_CHARS && Total(s) <= limit
    ensures a == Whole(s, stdout.oversized || stderr.oversized)
  {
    TailsHoldAll(s, limit);
    var tailOut, cutOut, droppedOut := stdout.Tail(limit, MAX_READ_CHARS);
    var tailErr, cutErr, droppedErr := stderr.Tail(limit, MAX_READ_CHARS);
    a := Whole(Spool(tailOut, tailErr), cutOut || cutErr);
  }

  class OutputPager {
    var outputCursors: map<Key, Cursor>
    var suppressedBase64Streams: set<Key>

    constructor ()
      ensures outputCursors == map[] && suppressedBase64Streams == {}
    {
      outputCursors, suppressedBase64Streams := map[], {};
    }

    ghost function CursorOf(key: Key): Option<Cursor>
      reads this
    {
      if key in outputCursors then Some(outputCursors[key]) else None
    }

    /** `looksOpaque` is the verdict of the base64 heuristic, `marker` the text that replaces such output. */
    method PageSpoolOutput(key: Key, s: Spool, running: bool, requestedChars: int, looksOpaque: bool, marker: string)
      returns (page: Page)
      modifies this
      ensures var hidden := looksOpaque || key in old(suppressedBase64Streams);
              page == PageOf(old(Clip(PriorCursor(CursorOf(key)), s)), s, running, requestedChars, if hidden then Some(marker) else None)
      ensures outputCursors == if page.stop then old(outputCursors) - {key} else old(outputCursors)[key := page.end]
      ensures suppressedBase64Streams ==
              if page.stop then old(suppressedBase64Streams) - {key}
              else if looksOpaque && page.start.stdout < |s.stdout| then old(suppressedBase64Streams) + {key}
              else old(suppressedBase64Streams)
    {
      var prior := if key in outputCursors then outputCursors[key] else START;
      var cursor := Clip(prior, s);
      var hidden := looksOpaque || key in suppressedBase64Streams;
      var suppressStdout := |s.stdout| > cursor.stdout && hidden;
      page := CutPage(cursor, s, running, requestedChars, suppressStdout, marker);
      IdleMarker(cursor, s, running, requestedChars, hidden, marker);
      if suppressStdout {
        suppressedBase64Streams := suppressedBase64Streams + {key};
      }
      if page.more || running {
        outputCursors := outputCursors[key := page.end];
      } else {
        outputCursors := outputCursors - {key};
        suppressedBase64Streams := suppressedBase64Streams - {key};
      }
    }

    /** One read of a process whose output is in `s`. A finished process has passed everything on to
        the in-memory captures. */
    method Read(key: Key, s: Spool, running: bool, stdout: BoundedCapture, stderr: BoundedCapture, maxChars: int,
                looksOpaque: bool, marker: string)
      returns (a: Answer)
      requires stdout.Valid() && stderr.Valid() && stdout != stderr
      requires !running ==> stdout.all == s.stdout && stderr.all == s.stderr
      modifies this
      ensures var hidden := looksOpaque || key in old(suppressedBase64Streams);
              var expected := AnswerOf(old(CursorOf(key)), s, running, maxChars, if hidden then Some(marker) else None);
              if expected.Paged? then a == expected else a.Whole? && a.text == s && a.cut == (stdout.oversized || stderr.oversized)
      ensures outputCursors == if a.Whole? then old(outputCursors)
                               else if a.page.stop then old(outputCursors) - {key} else old(outputCursors)[key := a.page.end]
    {
      var limit := Max(1, Min(maxChars, MAX_READ_CHARS));
      var spooledTotal := |s.stdout| + |s.stderr|;
      ghost var cursor, hidden := CursorOf(key), looksOpaque || key in suppressedBase64Streams;
      if running || key in outputCursors || spooledTotal > limit {
        assert NeedsPaging(cursor, s, running, maxChars);
        var page := PageSpoolOutput(key, s, running, limit, looksOpaque, marker);
        a := Paged(page);
        assert a == AnswerOf(cursor, s, running, maxChars, if hidden then Some(marker) else None) by {
          PagedAnswer(cursor, s, running, maxChars, if hidden then Some(marker) else None);
        }
      } else {
        a := AnswerFromTails(s, stdout, stderr, limit);
      }
    }
  }
}
