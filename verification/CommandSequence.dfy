/** Splitting a command text at its top-level `;`, `&&`, `||` and line ends into guarded steps: the
    token list of a text, the steps that the splitter makes of it, and the index loop that computes
    them. */
module CommandSequence {
  import opened Basics
  import opened Text
  import opened CommandWords

  datatype RunIf = Always | Success | Failure

  datatype Part = Part(command: string, runIf: RunIf)

  datatype Token = Word(text: string) | AndIf | OrIf | Semi | Newline

  // ----- lexical structure -----

  /** What stands at the head of the text: characters of a command, an operator, or something
      that needs a real shell. */
  datatype Head = Take(size: nat, quote: Quote, escaped: bool) | Op(width: nat, token: Token) | Unsupported

  function Classify(quote: Quote, escaped: bool, s: string): (h: Head)
    requires s != ""
    ensures h.Take? ==> 1 <= h.size <= |s|
    ensures h.Op? ==> 1 <= h.width <= |s| && !h.token.Word?
  {
    var c := s[0];
    if escaped then Take(1, quote, false)
    else if quote != Bare then
      if c == '`' && quote == Double then Take(1, quote, true)
      else if c == Mark(quote) then
        if quote == Single && |s| > 1 && s[1] == '\'' then Take(2, quote, false) else Take(1, Bare, false)
      else Take(1, quote, false)
    else if c == '\'' || c == '"' then Take(1, if c == '"' then Double else Single, false)
    else if c == '`' then Take(1, Bare, true)
    else if c == '&' && |s| > 1 && s[1] == '&' then Op(2, AndIf)
    else if c == '|' && |s| > 1 && s[1] == '|' then Op(2, OrIf)
    else if c == ';' then Op(1, Semi)
    else if c == '\r' && |s| > 1 && s[1] == '\n' then Op(2, Newline)
    else if c == '\r' || c == '\n' then Op(1, Newline)
    else if c == '|' || c == '&' then Unsupported
    else Take(1, Bare, false)
  }

  function WordOf(segment: string): seq<Token> {
    if Trim(segment) == "" then [] else [Word(Trim(segment))]
  }

  function Tokens(segment: string, quote: Quote, escaped: bool, s: string): Option<seq<Token>>
    decreases |s|
  {
    if s == "" then
      if quote != Bare || escaped then None else Some(WordOf(segment))
    else
      match Classify(quote, escaped, s)
      case Unsupported => None
      case Take(n, q, e) => Tokens(segment + s[..n], q, e, s[n..])
      case Op(n, t) =>
        match Tokens("", Bare, false, s[n..])
        case None => None
        case Some(rest) => Some(WordOf(segment) + [t] + rest)
  }

  // ----- the guarded steps -----

  function GuardAfter(op: Token): RunIf {
    if op == AndIf then Success else if op == OrIf then Failure else Always
  }

  /** The steps of a token list whose first command is guarded by `runIf`. */
  function Steps(toks: seq<Token>, runIf: RunIf): Option<seq<Part>>
    decreases |toks|
  {
    if toks == [] then Some([])
    else if toks[0].Newline? then Steps(toks[1..], runIf)
    else if !toks[0].Word? then None
    else
      match StepsAfter(toks[1..])
      case None => None
      case Some(rest) => Some([Part(toks[0].text, runIf)] + rest)
  }

  /** The steps of what follows a command. */
  function StepsAfter(toks: seq<Token>): Option<seq<Part>>
    decreases |toks|
  {
    if toks == [] then Some([])
    else if toks[0].Word? then None
    else Steps(toks[1..], GuardAfter(toks[0]))
  }

  function Continue(parts: seq<Part>, runIf: RunIf, toks: Option<seq<Token>>): Option<seq<Part>> {
    if toks.None? then None
    else
      match Steps(toks.value, runIf)
      case None => None
      case Some(rest) => Some(parts + rest)
  }

  function SplitSequence(command: string): Option<seq<Part>> {
    var all := Continue([], Always, Tokens("", Bare, false, command));
    if all.Some? && |all.value| > 1 then all else None
  }

  lemma StepsWord(text: string, op: Token, rest: seq<Token>, runIf: RunIf)
    requires !op.Word?
    ensures Steps([Word(text), op] + rest, runIf) ==
            match Steps(rest, GuardAfter(op)) case None => None case Some(more) => Some([Part(text, runIf)] + more)
  {
    var toks := [Word(text), op] + rest;
    assert toks[1..] == [op] + rest && toks[1..][1..] == rest;
  }

  lemma StepsOp(op: Token, rest: seq<Token>, runIf: RunIf)
    requires !op.Word?
    ensures Steps([op] + rest, runIf) == if op.Newline? then Steps(rest, runIf) else None
  {
    assert ([op] + rest)[1..] == rest;
  }

  lemma TokensOp(segment: string, quote: Quote, escaped: bool, s: string, n: nat, t: Token)
    requires s != "" && Classify(quote, escaped, s) == Op(n, t)
    ensures Tokens(segment, quote, escaped, s) ==
            match Tokens("", Bare, false, s[n..]) case None => None case Some(rest) => Some(WordOf(segment) + [t] + rest)
  {
  }

  /** An operator closes the command before it, or, when nothing precedes it, only a line end is harmless. */
  lemma ContinueOp(parts: seq<Part>, runIf: RunIf, segment: string, quote: Quote, escaped: bool, s: string, n: nat, t: Token)
    requires s != "" && Classify(quote, escaped, s) == Op(n, t)
    ensures Continue(parts, runIf, Tokens(segment, quote, escaped, s)) ==
            if Trim(segment) != "" then Continue(parts + [Part(Trim(segment), runIf)], GuardAfter(t), Tokens("", Bare, false, s[n..]))
            else if t.Newline? then Continue(parts, runIf, Tokens("", Bare, false, s[n..]))
            else None
  {
    TokensOp(segment, quote, escaped, s, n, t);
    ContinueRest(parts, runIf, segment, t, Tokens("", Bare, false, s[n..]));
  }

  lemma ContinueRest(parts: seq<Part>, runIf: RunIf, segment: string, t: Token, rest: Option<seq<Token>>)
    requires !t.Word?
    ensures Continue(parts, runIf, if rest.None? then None else Some(WordOf(segment) + [t] + rest.value)) ==
            if Trim(segment) != "" then Continue(parts + [Part(Trim(segment), runIf)], GuardAfter(t), rest)
            else if t.Newline? then Continue(parts, runIf, rest)
            else None
  {
    if rest.Some? {
      ContinueTokens(parts, runIf, Trim(segment), t, rest.value);
      if Trim(segment) != "" {
        assert WordOf(segment) + [t] + rest.value == [Word(Trim(segment)), t] + rest.value;
      } else {
        assert WordOf(segment) + [t] + rest.value == [t] + rest.value;
      }
    }
  }

  lemma ContinueTokens(parts: seq<Part>, runIf: RunIf, text: string, t: Token, rest: seq<Token>)
    requires !t.Word?
    ensures Continue(parts, runIf, Some([Word(text), t] + rest)) == Continue(parts + [Part(text, runIf)], GuardAfter(t), Some(rest))
    ensures Continue(parts, runIf, Some([t] + rest)) == if t.Newline? then Continue(parts, runIf, Some(rest)) else None
  {
    StepsWord(text, t, rest, runIf);
    StepsOp(t, rest, runIf);
    var more := Steps(rest, GuardAfter(t));
    if more.Some? {
      assert parts + [Part(text, runIf)] + more.value == parts + ([Part(text, runIf)] + more.value);
    }
  }

  /** The end of the text closes the last command, if there is one. */
  lemma ContinueEnd(parts: seq<Part>, runIf: RunIf, segment: string, quote: Quote, escaped: bool)
    ensures Continue(parts, runIf, Tokens(segment, quote, escaped, "")) ==
            if quote != Bare || escaped then None
            else if Trim(segment) == "" then Some(parts) else Some(parts + [Part(Trim(segment), runIf)])
  {
    var toks := [Word(Trim(segment))];
    assert toks[1..] == [] && parts + [] == parts;
    assert Steps([], runIf) == Some([]) && StepsAfter([]) == Some([]);
    assert [Part(Trim(segment), runIf)] + [] == [Part(Trim(segment), runIf)];
  }

  /** The branches on one character of the text, in the order the splitter tries them. */
  method ReadHead(command: string, index: nat, quote: Quote, escaped: bool) returns (h: Head)
    requires index < |command|
    ensures h == Classify(quote, escaped, command[index..])
  {
    var c := command[index];
    var peek := if index + 1 < |command| then Some(command[index + 1]) else None;
    if escaped {
      return Take(1, quote, false);
    }
    if quote != Bare {
      if c == '`' && quote == Double {
        return Take(1, quote, true);
      }
      if c == Mark(quote) {
        return if quote == Single && peek == Some('\'') then Take(2, quote, false) else Take(1, Bare, false);
      }
      return Take(1, quote, false);
    }
    if c == '\'' || c == '"' {
      return Take(1, if c == '"' then Double else Single, false);
    }
    if c == '`' {
      return Take(1, Bare, true);
    }
    if c == '&' && peek == Some('&') {
      return Op(2, AndIf);
    }
    if c == '|' && peek == Some('|') {
      return Op(2, OrIf);
    }
    if c == ';' {
      return Op(1, Semi);
    }
    if c == '\r' || c == '\n' {
      return Op(if c == '\r' && peek == Some('\n') then 2 else 1, Newline);
    }
    if c == '|' || c == '&' {
      return Unsupported;
    }
    return Take(1, Bare, false);
  }

  lemma Advance(command: string, start: nat, index: nat, n: nat)
    requires start <= index && index + n <= |command|
    ensures command[index..][n..] == command[index + n..]
    ensures command[start..index] + command[index..][..n] == command[start..index + n]
    ensures command[index + n..index + n] == ""
  {
  }

  /** What is still to be read, `rest`, standing at `index` inside the command that began at `start`. */
  ghost predicate Ahead(command: string, start: nat, index: nat, quote: Quote, escaped: bool, rest: Option<seq<Token>>) {
    start <= index <= |command| && Tokens(command[start..index], quote, escaped, command[index..]) == rest
  }

  lemma ScanBegins(command: string)
    ensures Ahead(command, 0, 0, Bare, false, Tokens("", Bare, false, command))
  {
    assert command[0..] == command && command[0..0] == "";
  }

  lemma ScanTakes(command: string, start: nat, index: nat, quote: Quote, escaped: bool, rest: Option<seq<Token>>, h: Head)
    requires Ahead(command, start, index, quote, escaped, rest) && index < |command|
    requires h == Classify(quote, escaped, command[index..]) && h.Take?
    ensures Ahead(command, start, index + h.size, h.quote, h.escaped, rest)
  {
    Advance(command, start, index, h.size);
  }

  /** An operator closes the command read so far; an empty one is an error unless a line ended. */
  lemma ScanCloses(command: string, parts: seq<Part>, runIf: RunIf, start: nat, index: nat,
                   quote: Quote, escaped: bool, rest: Option<seq<Token>>, h: Head)
    returns (next: Option<seq<Token>>)
    requires Ahead(command, start, index, quote, escaped, rest) && index < |command|
    requires h == Classify(quote, escaped, command[index..]) && h.Op?
    ensures Ahead(command, index + h.width, index + h.width, quote, escaped, next)
    ensures var text := Trim(command[start..index]);
            Continue(parts, runIf, rest) ==
            if text != "" then Continue(parts + [Part(text, runIf)], GuardAfter(h.token), next)
            else if h.token.Newline? then Continue(parts, runIf, next)
            else None
  {
    Advance(command, start, index, h.width);
    next := Tokens("", Bare, false, command[index + h.width..]);
    ContinueOp(parts, runIf, command[start..index], quote, escaped, command[index..], h.width, h.token);
  }

  lemma ScanStops(command: string, parts: seq<Part>, runIf: RunIf, start: nat, index: nat,
                  quote: Quote, escaped: bool, rest: Option<seq<Token>>)
    requires Ahead(command, start, index, quote, escaped, rest) && index < |command|
    requires Classify(quote, escaped, command[index..]).Unsupported?
    ensures Continue(parts, runIf, rest) == None
  {
  }

  lemma ScanEnds(command: string, parts: seq<Part>, runIf: RunIf, start: nat, quote: Quote, escaped: bool, rest: Option<seq<Token>>)
    requires Ahead(command, start, |command|, quote, escaped, rest)
    ensures var tail := Trim(command[start..]);
            Continue(parts, runIf, rest) ==
            if quote != Bare || escaped then None
            else if tail == "" then Some(parts) else Some(parts + [Part(tail, runIf)])
  {
    assert command[|command|..] == "" && command[start..] == command[start..|command|];
    ContinueEnd(parts, runIf, command[start..], quote, escaped);
  }

  /** What is left after the last operator is the last command. */
  method Finish(command: string, parts: seq<Part>, runIf: RunIf, start: nat, quote: Quote, escaped: bool,
                sawSeparator: bool, ghost rest: Option<seq<Token>>)
    returns (r: Option<seq<Part>>)
    requires Ahead(command, start, |command|, quote, escaped, rest) && (parts != [] ==> sawSeparator)
    ensures var all := Continue(parts, runIf, rest);
            r == if all.Some? && |all.value| > 1 then all else None
  {
    ScanEnds(command, parts, runIf, start, quote, escaped, rest);
    if quote != Bare || escaped {
      return None;
    }
    var whole := parts;
    var tail := Trim(command[start..]);
    if tail != "" {
      whole := whole + [Part(tail, runIf)];
    }
    return if sawSeparator && |whole| > 1 then Some(whole) else None;
  }

  method SplitTopLevelSequence(command: string) returns (r: Option<seq<Part>>)
    ensures r == SplitSequence(command)
  {
    var parts: seq<Part> := [];
    var start, index := 0, 0;
    var nextRunIf := Always;
    var quote := Bare;
    var escaped, sawSeparator := false, false;
    ghost var rest := Tokens("", Bare, false, command);
    ghost var all := Continue([], Always, rest);
    assert SplitSequence(command) == if all.Some? && |all.value| > 1 then all else None;
    ScanBegins(command);
    while index < |command|
      invariant 0 <= start <= index <= |command|
      invariant parts != [] ==> sawSeparator
      invariant Ahead(command, start, index, quote, escaped, rest)
      invariant Continue(parts, nextRunIf, rest) == all
    {
      var h := ReadHead(command, index, quote, escaped);
      if h.Unsupported? {
        ScanStops(command, parts, nextRunIf, start, index, quote, escaped, rest);
        return None;
      }
      if h.Take? {
        ScanTakes(command, start, index, quote, escaped, rest, h);
        quote, escaped := h.quote, h.escaped;
        index := index + h.size;
        assert Ahead(command, start, index, quote, escaped, rest);
        continue;
      }
      rest := ScanCloses(command, parts, nextRunIf, start, index, quote, escaped, rest, h);
      var text := Trim(command[start..index]);
      index := index + h.width;
      start := index;
      assert Ahead(command, start, index, quote, escaped, rest);
      if text != "" {
        parts := parts + [Part(text, nextRunIf)];
        nextRunIf := GuardAfter(h.token);
        sawSeparator := true;
      } else if !h.token.Newline? {
        return None;
      }
    }
    r := Finish(command, parts, nextRunIf, start, quote, escaped, sawSeparator, rest);
  }
}
