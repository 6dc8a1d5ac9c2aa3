/** Splitting a command text at its top-level pipes, and how that splitter and the one for
    sequences divide the texts between them. */
module CommandPipeline {
  import opened Basics
  import opened Text
  import opened CommandWords
  import opened CommandSequence

  /** What stands at the head of the text for the pipe splitter. */
  datatype PipeHead = Inside(size: nat, quote: Quote, escaped: bool) | Pipe | Refused

  predicate EscapedQuoteAt(s: string) {
    |s| > 1 && s[0] == '\\' && s[1] == '"'
  }

  function ClassifyPipe(quote: Quote, escaped: bool, s: string): (h: PipeHead)
    requires s != ""
    ensures h.Inside? ==> 1 <= h.size <= |s|
    ensures h.Pipe? ==> quote == Bare && !escaped && s[0] == '|'
  {
    var c := s[0];
    if escaped then Inside(1, quote, false)
    else if quote != Bare then
      if quote == Double && EscapedQuoteAt(s) then Inside(2, quote, false)
      else if c == '`' && quote == Double then Inside(1, quote, true)
      else if c == Mark(quote) then
        if quote == Single && |s| > 1 && s[1] == '\'' then Inside(2, quote, false) else Inside(1, Bare, false)
      else Inside(1, quote, false)
    else if c == '\'' || c == '"' then Inside(1, if c == '"' then Double else Single, false)
    else if c == '`' then Inside(1, Bare, true)
    else if c == '|' && |s| > 1 && s[1] == '|' then Refused
    else if c == '|' then Pipe
    else if c == ';' || c == '&' || c == '\r' || c == '\n' then Refused
    else Inside(1, Bare, false)
  }

  /** The commands between the pipes of what is left, the first begun by `segment`. */
  function Stages(segment: string, quote: Quote, escaped: bool, s: string): Option<seq<string>>
    decreases |s|
  {
    if s == "" then
      if quote != Bare || escaped || Trim(segment) == "" then None else Some([Trim(segment)])
    else
      match ClassifyPipe(quote, escaped, s)
      case Refused => None
      case Inside(n, q, e) => Stages(segment + s[..n], q, e, s[n..])
      case Pipe =>
        match Stages("", Bare, false, s[1..])
        case None => None
        case Some(rest) => if Trim(segment) == "" then None else Some([Trim(segment)] + rest)
  }

  function SplitPipeline(command: string): Option<seq<string>> {
    var all := Stages("", Bare, false, command);
    if all.Some? && |all.value| > 1 then all else None
  }

  function With(parts: seq<string>, rest: Option<seq<string>>): Option<seq<string>> {
    if rest.None? then None else Some(parts + rest.value)
  }

  /** What is still to be split, `rest`, standing at `index` inside the command that began at `start`. */
  ghost predicate AheadOf(command: string, start: nat, index: nat, quote: Quote, escaped: bool, rest: Option<seq<string>>) {
    start <= index <= |command| && Stages(command[start..index], quote, escaped, command[index..]) == rest
  }

  lemma PipeBegins(command: string)
    ensures AheadOf(command, 0, 0, Bare, false, Stages("", Bare, false, command))
  {
    assert command[0..] == command && command[0..0] == "";
  }

  lemma PipeTakes(command: string, start: nat, index: nat, quote: Quote, escaped: bool, rest: Option<seq<string>>, h: PipeHead)
    requires AheadOf(command, start, index, quote, escaped, rest) && index < |command|
    requires h == ClassifyPipe(quote, escaped, command[index..]) && h.Inside?
    ensures AheadOf(command, start, index + h.size, h.quote, h.escaped, rest)
  {
    Advance(command, start, index, h.size);
  }

  lemma PipeCloses(command: string, parts: seq<string>, start: nat, index: nat, quote: Quote, escaped: bool, rest: Option<seq<string>>)
    returns (next: Option<seq<string>>)
    requires AheadOf(command, start, index, quote, escaped, rest) && index < |command|
    requires ClassifyPipe(quote, escaped, command[index..]).Pipe?
    ensures AheadOf(command, index + 1, index + 1, quote, escaped, next)
    ensures var text := Trim(command[start..index]);
            With(parts, rest) == if text == "" then None else With(parts + [text], next)
  {
    Advance(command, start, index, 1);
    next := Stages("", Bare, false, command[index + 1..]);
    var text := Trim(command[start..index]);
    if next.Some? {
      assert parts + ([text] + next.value) == parts + [text] + next.value;
    }
  }

  lemma PipeRefuses(command: string, parts: seq<string>, start: nat, index: nat, quote: Quote, escaped: bool, rest: Option<seq<string>>)
    requires AheadOf(command, start, index, quote, escaped, rest) && index < |command|
    requires ClassifyPipe(quote, escaped, command[index..]).Refused?
    ensures With(parts, rest) == None
  {
  }

  method ReadPipeHead(command: string, index: nat, quote: Quote, escaped: bool) returns (h: PipeHead)
    requires index < |command|
    ensures h == ClassifyPipe(quote, escaped, command[index..])
  {
    var c := command[index];
    var peek := if index + 1 < |command| then Some(command[index + 1]) else None;
    if escaped {
      return Inside(1, quote, false);
    }
    if quote != Bare {
      if quote == Double && c == '\\' && peek == Some('"') {
        return Inside(2, quote, false);
      }
      if c == '`' && quote == Double {
        return Inside(1, quote, true);
      }
      if c == Mark(quote) {
        return if quote == Single && peek == Some('\'') then Inside(2, quote, false) else Inside(1, Bare, false);
      }
      return Inside(1, quote, false);
    }
    if c == '\'' || c == '"' {
      return Inside(1, if c == '"' then Double else Single, false);
    }
    if c == '`' {
      return Inside(1, Bare, true);
    }
    if c == '|' && peek == Some('|') {
      return Refused;
    }
    if c == '|' {
      return Pipe;
    }
    if c == ';' || c == '&' || c == '\r' || c == '\n' {
      return Refused;
    }
    return Inside(1, Bare, false);
  }

  /** A pipe closes the stage read so far, which must not be blank. */
  method Push(command: string, parts: seq<string>, start: nat, index: nat, quote: Quote, escaped: bool, ghost rest: Option<seq<string>>)
    returns (pushed: bool, more: seq<string>, ghost next: Option<seq<string>>)
    requires AheadOf(command, start, index, quote, escaped, rest) && index < |command|
    requires ClassifyPipe(quote, escaped, command[index..]).Pipe?
    ensures !pushed ==> With(parts, rest) == None
    ensures pushed ==> more != [] && AheadOf(command, index + 1, index + 1, quote, escaped, next) && With(more, next) == With(parts, rest)
  {
    next := PipeCloses(command, parts, start, index, quote, escaped, rest);
    var segment := Trim(command[start..index]);
    pushed, more := segment != "", parts + [segment];
  }

  method SplitTopLevelPipeline(command: string) returns (r: Option<seq<string>>)
    ensures r == SplitPipeline(command)
  {
    var parts: seq<string> := [];
    var start, index := 0, 0;
    var quote := Bare;
    var escaped, sawPipe := false, false;
    ghost var rest := Stages("", Bare, false, command);
    ghost var all := rest;
    assert all.Some? ==> [] + all.value == all.value;
    PipeBegins(command);
    while index < |command|
      invariant 0 <= start <= index <= |command| && (sawPipe <==> parts != [])
      invariant AheadOf(command, start, index, quote, escaped, rest)
      invariant With(parts, rest) == all
    {
      var h := ReadPipeHead(command, index, quote, escaped);
      if h.Refused? {
        PipeRefuses(command, parts, start, index, quote, escaped, rest);
        return None;
      }
      if h.Inside? {
        PipeTakes(command, start, index, quote, escaped, rest, h);
        quote, escaped := h.quote, h.escaped;
        index := index + h.size;
        assert AheadOf(command, start, index, quote, escaped, rest);
        continue;
      }
      var pushed: bool;
      pushed, parts, rest := Push(command, parts, start, index, quote, escaped, rest);
      if !pushed {
        return None;
      }
      sawPipe := true;
      index := index + 1;
      start := index;
    }
    r := FinishPipeline(command, parts, start, quote, escaped, sawPipe, rest);
  }

  method FinishPipeline(command: string, parts: seq<string>, start: nat, quote: Quote, escaped: bool, sawPipe: bool,
                        ghost rest: Option<seq<string>>)
    returns (r: Option<seq<string>>)
    requires AheadOf(command, start, |command|, quote, escaped, rest) && (sawPipe <==> parts != [])
    ensures var all := With(parts, rest);
            r == if all.Some? && |all.value| > 1 then all else None
  {
    assert command[|command|..] == "" && command[start..] == command[start..|command|];
    if quote != Bare || escaped || !sawPipe {
      return None;
    }
    var tail := Trim(command[start..]);
    if tail == "" {
      return None;
    }
    return Some(parts + [tail]);
  }

  // ----- the two splitters -----

  /** Before the first pipe or refusal the pipe splitter reads a backslash and a quote, inside
      double quotes, as a quoted quote: the branch that only it has. */
  predicate ReadsQuotedQuote(quote: Quote, escaped: bool, s: string)
    decreases |s|
  {
    s != "" &&
    ((quote == Double && !escaped && EscapedQuoteAt(s)) ||
     match ClassifyPipe(quote, escaped, s)
     case Inside(n, q, e) => ReadsQuotedQuote(q, e, s[n..])
     case _ => false)
  }

  /** What the two splitters read at the head of the text is the same: the same characters inside a
      command, or the end of what one of them can split. */
  predicate SameHead(quote: Quote, escaped: bool, s: string)
    requires s != ""
  {
    match ClassifyPipe(quote, escaped, s)
    case Inside(n, q, e) => Classify(quote, escaped, s) == Take(n, q, e)
    case Pipe => Classify(quote, escaped, s) == Unsupported
    case Refused => !Classify(quote, escaped, s).Take?
  }

  /** They read the same at every position up to the first pipe or refusal. */
  predicate ReadAlike(quote: Quote, escaped: bool, s: string)
    decreases |s|
  {
    s == "" ||
    (SameHead(quote, escaped, s) &&
     match ClassifyPipe(quote, escaped, s)
     case Inside(n, q, e) => ReadAlike(q, e, s[n..])
     case _ => true)
  }

  lemma SameHeadIff(quote: Quote, escaped: bool, s: string)
    requires s != ""
    ensures SameHead(quote, escaped, s) <==> !(quote == Double && !escaped && EscapedQuoteAt(s))
  {
  }

  /** The splitters read a text alike exactly when that branch is never taken. */
  lemma {:induction false} ReadAlikeIff(quote: Quote, escaped: bool, s: string)
    ensures ReadAlike(quote, escaped, s) <==> !ReadsQuotedQuote(quote, escaped, s)
    decreases |s|
  {
    if s == "" {
    } else {
      SameHeadIff(quote, escaped, s);
      var h := ClassifyPipe(quote, escaped, s);
      if h.Inside? {
        ReadAlikeIff(h.quote, h.escaped, s[h.size..]);
      }
    }
  }

  lemma {:induction false} PipedIsNotTokens(segment: string, other: string, quote: Quote, escaped: bool, s: string)
    requires ReadAlike(quote, escaped, s)
    requires Stages(segment, quote, escaped, s).Some? && |Stages(segment, quote, escaped, s).value| > 1
    ensures Tokens(other, quote, escaped, s).None?
    decreases |s|
  {
    if s == "" {
    } else {
      var h := ClassifyPipe(quote, escaped, s);
      if h.Inside? {
        PipedIsNotTokens(segment + s[..h.size], other + s[..h.size], h.quote, h.escaped, s[h.size..]);
      }
    }
  }

  /** A text in which that branch is never taken is not split by both. */
  lemma SplittersAreDisjoint(command: string)
    requires !ReadsQuotedQuote(Bare, false, command)
    ensures SplitPipeline(command).None? || SplitSequence(command).None?
  {
    ReadAlikeIff(Bare, false, command);
    if SplitPipeline(command).Some? {
      PipedIsNotTokens("", "", Bare, false, command);
    }
  }

  // ----- pipelines written out -----

  /** On its own the text is one stage: nothing to trim, every quote closed, no pipe or operator outside quotes. */
  predicate OneStage(text: string) {
    text != "" && Stages("", Bare, false, text) == Some([text])
  }

  function Piped(parts: seq<string>): string
    requires parts != []
  {
    if |parts| == 1 then parts[0] else parts[0] + "|" + Piped(parts[1..])
  }

  lemma InsideExtends(quote: Quote, escaped: bool, s: string, more: string)
    requires s != "" && ClassifyPipe(quote, escaped, s).Inside? && more != "" && more[0] == '|'
    ensures ClassifyPipe(quote, escaped, s + more) == ClassifyPipe(quote, escaped, s)
  {
  }

  lemma StageAtPipe(segment: string, s: string)
    requires s != "" && s[0] == '|' && (|s| > 1 ==> s[1] != '|')
    ensures Stages(segment, Bare, false, s) ==
            match Stages("", Bare, false, s[1..])
            case None => None
            case Some(rest) => if Trim(segment) == "" then None else Some([Trim(segment)] + rest)
  {
  }

  lemma PipeMeansMore(segment: string, quote: Quote, escaped: bool, s: string)
    requires s != "" && ClassifyPipe(quote, escaped, s).Pipe?
    ensures Stages(segment, quote, escaped, s).Some? ==> |Stages(segment, quote, escaped, s).value| > 1
  {
    StagesAreSome("", Bare, false, s[1..]);
  }

  lemma {:induction false} StagesAreSome(segment: string, quote: Quote, escaped: bool, s: string)
    ensures Stages(segment, quote, escaped, s).Some? ==> Stages(segment, quote, escaped, s).value != []
    decreases |s|
  {
    if s == "" {
    } else {
      var h := ClassifyPipe(quote, escaped, s);
      if h.Inside? {
        StagesAreSome(segment + s[..h.size], h.quote, h.escaped, s[h.size..]);
      }
    }
  }

  /** A stage is read as itself in front of a pipe. */
  lemma {:induction false} StageThenPipe(segment: string, quote: Quote, escaped: bool, s: string, rest: string, text: string)
    requires Stages(segment, quote, escaped, s) == Some([text]) && (rest != "" ==> rest[0] != '|')
    ensures Stages(segment, quote, escaped, s + ("|" + rest)) ==
            match Stages("", Bare, false, rest) case None => None case Some(more) => Some([text] + more)
    decreases |s|
  {
    var tail := "|" + rest;
    var whole := s + tail;
    if s == "" {
      assert whole == tail && tail[1..] == rest;
      StageAtPipe(segment, tail);
    } else {
      var h := ClassifyPipe(quote, escaped, s);
      PipeMeansMoreOrInside(segment, quote, escaped, s, text);
      InsideExtends(quote, escaped, s, tail);
      assert whole[..h.size] == s[..h.size] && whole[h.size..] == s[h.size..] + tail;
      StageThenPipe(segment + s[..h.size], h.quote, h.escaped, s[h.size..], rest, text);
    }
  }

  lemma PipeMeansMoreOrInside(segment: string, quote: Quote, escaped: bool, s: string, text: string)
    requires s != "" && Stages(segment, quote, escaped, s) == Some([text])
    ensures ClassifyPipe(quote, escaped, s).Inside?
  {
    if ClassifyPipe(quote, escaped, s).Pipe? {
      PipeMeansMore(segment, quote, escaped, s);
    }
  }

  lemma StageStartsOtherwise(text: string)
    requires OneStage(text)
    ensures text[0] != '|'
  {
    PipeMeansMoreOrInside("", Bare, false, text, text);
  }

  /** Any two or more stages written out with pipes between them are split into just these stages. */
  lemma {:induction false} PipedIsRead(parts: seq<string>)
    requires parts != [] && forall i :: 0 <= i < |parts| ==> OneStage(parts[i])
    ensures Stages("", Bare, false, Piped(parts)) == Some(parts) && Piped(parts) != "" && Piped(parts)[0] != '|'
    ensures |parts| > 1 ==> SplitPipeline(Piped(parts)) == Some(parts)
    decreases |parts|
  {
    StageStartsOtherwise(parts[0]);
    if |parts| == 1 {
      assert parts == [parts[0]];
    } else {
      var rest := Piped(parts[1..]);
      PipedIsRead(parts[1..]);
      StageThenPipe("", Bare, false, parts[0], rest, parts[0]);
      assert Piped(parts) == parts[0] + ("|" + rest);
      assert [parts[0]] + parts[1..] == parts;
    }
  }

  // ----- a text that both splitters accept -----

  /** `a"\";b"|"\""`, character by character. */
  predicate Ambiguous(t: string) {
    && |t| == 12 && t[0] == 'a' && t[1] == '"' && t[2] == '\\' && t[3] == '"' && t[4] == ';' && t[5] == 'b'
    && t[6] == '"' && t[7] == '|' && t[8] == '"' && t[9] == '\\' && t[10] == '"' && t[11] == '"'
  }

  /** A visible ASCII character. */
  predicate Visible(c: char) {
    '!' <= c <= '~'
  }

  lemma VisibleIsNoSpace(c: char)
    requires Visible(c)
    ensures !IsSpace(c)
  {
  }

  lemma NothingToTrim(s: string)
    requires s != "" && Visible(s[0]) && Visible(s[|s| - 1])
    ensures Trim(s) == s
  {
    VisibleIsNoSpace(s[0]);
    VisibleIsNoSpace(s[|s| - 1]);
  }

  lemma PipeStep(w: string, i: nat, quote: Quote, q: Quote, n: nat, rest: Option<seq<string>>)
    requires i < |w| && AheadOf(w, 0, i, quote, false, rest) && ClassifyPipe(quote, false, w[i..]) == Inside(n, q, false)
    ensures AheadOf(w, 0, i + n, q, false, rest)
  {
    PipeTakes(w, 0, i, quote, false, rest, Inside(n, q, false));
  }

  lemma StageEnds(w: string, rest: Option<seq<string>>)
    requires w != "" && AheadOf(w, 0, |w|, Bare, false, rest) && Visible(w[0]) && Visible(w[|w| - 1])
    ensures rest == Some([w])
  {
    NothingToTrim(w);
    assert w[0..|w|] == w && w[|w|..] == "";
  }

  lemma FirstStage(w: string)
    requires |w| == 7 && w[0] == 'a' && w[1] == '"' && w[2] == '\\' && w[3] == '"' && w[4] == ';' && w[5] == 'b' && w[6] == '"'
    ensures OneStage(w)
  {
    var rest := Stages("", Bare, false, w);
    PipeBegins(w);
    PipeStep(w, 0, Bare, Bare, 1, rest);
    PipeStep(w, 1, Bare, Double, 1, rest);
    PipeStep(w, 2, Double, Double, 2, rest);
    PipeStep(w, 4, Double, Double, 1, rest);
    PipeStep(w, 5, Double, Double, 1, rest);
    PipeStep(w, 6, Double, Bare, 1, rest);
    StageEnds(w, rest);
  }

  lemma SecondStage(w: string)
    requires |w| == 4 && w[0] == '"' && w[1] == '\\' && w[2] == '"' && w[3] == '"'
    ensures OneStage(w)
  {
    var rest := Stages("", Bare, false, w);
    PipeBegins(w);
    PipeStep(w, 0, Bare, Double, 1, rest);
    PipeStep(w, 1, Double, Double, 2, rest);
    PipeStep(w, 3, Double, Bare, 1, rest);
    StageEnds(w, rest);
  }

  lemma TokenStep(w: string, start: nat, i: nat, quote: Quote, q: Quote, rest: Option<seq<Token>>)
    requires i < |w| && Ahead(w, start, i, quote, false, rest) && Classify(quote, false, w[i..]) == Take(1, q, false)
    ensures Ahead(w, start, i + 1, q, false, rest)
  {
    ScanTakes(w, start, i, quote, false, rest, Take(1, q, false));
  }

  lemma FirstCommand(t: string, rest: Option<seq<Token>>)
    requires Ambiguous(t) && rest == Tokens("", Bare, false, t)
    ensures Ahead(t, 0, 4, Bare, false, rest)
  {
    ScanBegins(t);
    TokenStep(t, 0, 0, Bare, Bare, rest);
    TokenStep(t, 0, 1, Bare, Double, rest);
    TokenStep(t, 0, 2, Double, Double, rest);
    TokenStep(t, 0, 3, Double, Bare, rest);
  }

  lemma SecondCommandBegins(t: string, rest: Option<seq<Token>>)
    requires Ambiguous(t) && Ahead(t, 5, 5, Bare, false, rest)
    ensures Ahead(t, 5, 9, Bare, false, rest)
  {
    TokenStep(t, 5, 5, Bare, Bare, rest);
    TokenStep(t, 5, 6, Bare, Double, rest);
    TokenStep(t, 5, 7, Double, Double, rest);
    TokenStep(t, 5, 8, Double, Bare, rest);
  }

  lemma SecondCommand(t: string, rest: Option<seq<Token>>)
    requires Ambiguous(t) && Ahead(t, 5, 5, Bare, false, rest)
    ensures Ahead(t, 5, 12, Bare, false, rest)
  {
    SecondCommandBegins(t, rest);
    TokenStep(t, 5, 9, Bare, Bare, rest);
    TokenStep(t, 5, 10, Bare, Double, rest);
    TokenStep(t, 5, 11, Double, Bare, rest);
  }

  lemma SequenceView(t: string)
    requires Ambiguous(t)
    ensures SplitSequence(t) == Some([Part(t[..4], Always), Part(t[5..], Always)])
  {
    var rest := Tokens("", Bare, false, t);
    FirstCommand(t, rest);
    var first, second := t[0..4], t[5..12];
    NothingToTrim(first);
    NothingToTrim(second);
    var next := ScanCloses(t, [], Always, 0, 4, Bare, false, rest, Op(1, Semi));
    SecondCommand(t, next);
    ScanEnds(t, [Part(first, Always)], Always, 5, Bare, false, next);
    assert t[5..] == second && t[..4] == first && [] + [Part(first, Always)] == [Part(first, Always)];
    assert [Part(first, Always)] + [Part(second, Always)] == [Part(first, Always), Part(second, Always)];
  }

  /** The pipe splitter takes a backslash before a double quote inside double quotes for a quoted
      quote, the sequence splitter for the end of the string: here both find two commands, but
      not the same two. */
  lemma BothCanAccept(t: string)
    requires Ambiguous(t)
    ensures SplitPipeline(t) == Some([t[..7], t[8..]])
    ensures SplitSequence(t) == Some([Part(t[..4], Always), Part(t[5..], Always)])
  {
    var parts := [t[..7], t[8..]];
    FirstStage(t[..7]);
    SecondStage(t[8..]);
    PipedIsRead(parts);
    assert parts[1..] == [t[8..]];
    assert t == t[..7] + "|" + t[8..];
    SequenceView(t);
  }
}
