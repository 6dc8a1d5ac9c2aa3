/** The quoting printer for structured argv, and the word parser that reads it back. */
module CommandWords {
  import opened Basics
  import opened Text

  datatype Quote = Bare | Single | Double

  datatype ParsedWords = ParsedWords(words: seq<string>, shellSyntax: bool, expansion: bool)

  /** The parser's variables between two characters. */
  datatype Lexer = Lexer(words: seq<string>, current: string, started: bool, quote: Quote, shellSyntax: bool, expansion: bool)

  const FRESH := Lexer([], "", false, Bare, false, false)

  function Flushed(x: Lexer): Lexer {
    if x.started then x.(words := x.words + [x.current], current := "", started := false) else x
  }

  function Taken(x: Lexer, c: char): Lexer {
    x.(current := x.current + [c], started := true)
  }

  /** How many characters the parser consumes at the head of `s`, and its variables afterwards. */
  function Read(x: Lexer, s: string): (r: (Lexer, nat))
    requires s != ""
    ensures 1 <= r.1 <= |s|
  {
    var c := s[0];
    var peek := if |s| > 1 then s[1] else '\0';
    if x.quote != Bare then
      if x.quote == Double && c == '\\' && |s| > 1 && peek == '"' then (Taken(x, '"'), 2)
      else if c == Mark(x.quote) then
        if x.quote == Single && |s| > 1 && peek == '\'' then (Taken(x, '\''), 2)
        else (x.(quote := Bare, started := true), 1)
      else (Taken(if x.quote == Double && c == '$' then x.(expansion := true) else x, c), 1)
    else if c == '\'' || c == '"' then (x.(quote := if c == '"' then Double else Single, started := true), 1)
    else if c == '\r' || c == '\n' then (Flushed(x.(shellSyntax := true)), 1)
    else if IsSpace(c) then (Flushed(x), 1)
    else
      (Taken(x.(shellSyntax := x.shellSyntax || Operator(c), expansion := x.expansion || c == '$' || c == '`'), c), 1)
  }

  predicate Operator(c: char) {
    c == ';' || c == '|' || c == '&' || c == '<' || c == '>'
  }

  function Mark(q: Quote): char {
    if q == Double then '"' else '\''
  }

  function Lex(x: Lexer, s: string): Option<ParsedWords>
    decreases |s|
  {
    if s == "" then
      if x.quote != Bare then None
      else Some(ParsedWords(Flushed(x).words, x.shellSyntax, x.expansion))
    else
      var (y, n) := Read(x, s);
      Lex(y, s[n..])
  }

  method ParseWords(command: string) returns (r: Option<ParsedWords>)
    ensures r == Lex(FRESH, command)
  {
    var words: seq<string> := [];
    var current := "";
    var started, shellSyntax, expansion := false, false, false;
    var quote := Bare;
    var index := 0;
    while index < |command|
      invariant index <= |command|
      invariant Lex(Lexer(words, current, started, quote, shellSyntax, expansion), command[index..]) == Lex(FRESH, command)
    {
      var c := command[index];
      assert command[index..][0] == c;
      if quote != Bare {
        if quote == Double && c == '\\' && index + 1 < |command| && command[index + 1] == '"' {
          assert command[index..][2..] == command[index + 2..];
          current := current + ['"'];
          started := true;
          index := index + 2;
          continue;
        }
        if c == Mark(quote) {
          if quote == Single && index + 1 < |command| && command[index + 1] == '\'' {
            assert command[index..][2..] == command[index + 2..];
            current := current + ['\''];
            started := true;
            index := index + 2;
            continue;
          }
          assert command[index..][1..] == command[index + 1..];
          quote := Bare;
          started := true;
          index := index + 1;
          continue;
        }
        assert command[index..][1..] == command[index + 1..];
        if quote == Double && c == '$' {
          expansion := true;
        }
        current := current + [c];
        started := true;
        index := index + 1;
        continue;
      }
      assert command[index..][1..] == command[index + 1..];
      if c == '\'' || c == '"' {
        quote := if c == '"' then Double else Single;
        started := true;
      } else if c == '\r' || c == '\n' || IsSpace(c) {
        if c == '\r' || c == '\n' {
          shellSyntax := true;
        }
        if started {
          words := words + [current];
          current := "";
          started := false;
        }
      } else {
        if Operator(c) {
          shellSyntax := true;
        }
        if c == '$' || c == '`' {
          expansion := true;
        }
        current := current + [c];
        started := true;
      }
      index := index + 1;
    }
    if quote != Bare {
      return None;
    }
    if started {
      words := words + [current];
    }
    return Some(ParsedWords(words, shellSyntax, expansion));
  }

  // ----- the printer -----

  predicate Safe(c: char) {
    || 'A' <= c <= 'Z' || 'a' <= c <= 'z' || '0' <= c <= '9'
    || c == '_' || c == '.' || c == '/' || c == ':' || c == '@' || c == '%' || c == '+' || c == '=' || c == ',' || c == '\\' || c == '-'
  }

  predicate AllSafe(s: string) {
    s != "" && forall i :: 0 <= i < |s| ==> Safe(s[i])
  }

  /** Every `'` doubled. */
  function Doubled(s: string): string {
    if s == "" then "" else (if s[0] == '\'' then "''" else [s[0]]) + Doubled(s[1..])
  }

  function QuoteArgument(value: string): string {
    if AllSafe(value) then value else "'" + Doubled(value) + "'"
  }

  function QuotedTail(args: seq<string>): string {
    if args == [] then "" else " " + QuoteArgument(args[0]) + QuotedTail(args[1..])
  }

  predicate HasSpace(s: string) {
    exists i :: 0 <= i < |s| && IsSpace(s[i])
  }

  function Display(executable: string, args: seq<string>): string {
    (if HasSpace(executable) then "& " else "") + QuoteArgument(executable) + QuotedTail(args)
  }

  /** The text whose words the planner takes: a leading call operator and its blanks are dropped. */
  function ArgvSource(command: string): string {
    var trimmed := TrimStart(command);
    if |trimmed| > 1 && trimmed[0] == '&' && IsSpace(trimmed[1]) then TrimStart(trimmed[1..]) else command
  }

  // ----- reading back what was printed -----

  lemma ReadSafe(x: Lexer, s: string)
    requires s != "" && x.quote == Bare && Safe(s[0])
    ensures Read(x, s) == (Taken(x, s[0]), 1)
  {
  }

  lemma LexOne(x: Lexer, s: string, y: Lexer)
    requires s != "" && Read(x, s) == (y, 1)
    ensures Lex(x, s) == Lex(y, s[1..])
  {
  }

  lemma LexTwo(x: Lexer, s: string, y: Lexer)
    requires |s| >= 2 && Read(x, s) == (y, 2)
    ensures Lex(x, s) == Lex(y, s[2..])
  {
  }

  /** Reading safe characters only extends the current word. */
  lemma {:induction false} LexSafe(x: Lexer, value: string, rest: string)
    requires x.quote == Bare && forall i :: 0 <= i < |value| ==> Safe(value[i])
    ensures Lex(x, value + rest) == Lex(x.(current := x.current + value, started := x.started || value != ""), rest)
    decreases |value|
  {
    if value == "" {
      assert value + rest == rest && x.current + value == x.current;
    } else {
      assert (value + rest)[1..] == value[1..] + rest;
      ReadSafe(x, value + rest);
      LexOne(x, value + rest, Taken(x, value[0]));
      LexSafe(Taken(x, value[0]), value[1..], rest);
      assert x.current + [value[0]] + value[1..] == x.current + value;
    }
  }

  /** Reading a doubled text inside single quotes, up to the closing mark, gives the text back. */
  lemma {:induction false} LexDoubled(x: Lexer, value: string, rest: string)
    requires x.quote == Single && (rest == "" || rest[0] != '\'')
    ensures Lex(x, Doubled(value) + "'" + rest) == Lex(x.(current := x.current + value, started := true, quote := Bare), rest)
    decreases |value|
  {
    var text := Doubled(value) + "'" + rest;
    if value == "" {
      assert text == "'" + rest && text[1..] == rest && x.current + value == x.current;
    } else if value[0] == '\'' {
      assert text == "''" + (Doubled(value[1..]) + "'" + rest);
      assert text[2..] == Doubled(value[1..]) + "'" + rest;
      LexTwo(x, text, Taken(x, '\''));
      LexDoubled(Taken(x, '\''), value[1..], rest);
      assert x.current + ['\''] + value[1..] == x.current + value;
    } else {
      assert text == [value[0]] + (Doubled(value[1..]) + "'" + rest);
      assert text[1..] == Doubled(value[1..]) + "'" + rest;
      LexOne(x, text, Taken(x, value[0]));
      LexDoubled(Taken(x, value[0]), value[1..], rest);
      assert x.current + [value[0]] + value[1..] == x.current + value;
    }
  }

  lemma ReadMark(x: Lexer, s: string)
    requires s != "" && s[0] == '\'' && x.quote == Bare
    ensures Read(x, s) == (x.(quote := Single, started := true), 1)
  {
  }

  lemma ReadBlank(x: Lexer, s: string)
    requires s != "" && s[0] == ' ' && x.quote == Bare
    ensures Read(x, s) == (Flushed(x), 1)
  {
  }

  lemma LexQuoted(x: Lexer, value: string, rest: string)
    requires x.quote == Bare && x.current == "" && (rest == "" || rest[0] == ' ')
    ensures Lex(x, "'" + Doubled(value) + "'" + rest) == Lex(x.(current := value, started := true), rest)
  {
    var inner := Doubled(value) + "'" + rest;
    var text := "'" + Doubled(value) + "'" + rest;
    assert text == ['\''] + inner;
    ReadMark(x, text);
    LexOne(x, text, x.(quote := Single, started := true));
    LexDoubled(x.(quote := Single, started := true), value, rest);
    assert x.current + value == value;
  }

  lemma LexArgument(x: Lexer, value: string, rest: string)
    requires x.quote == Bare && x.current == "" && !x.started && (rest == "" || rest[0] == ' ')
    ensures Lex(x, QuoteArgument(value) + rest) == Lex(x.(current := value, started := true), rest)
  {
    if AllSafe(value) {
      LexSafe(x, value, rest);
      assert x.current + value == value;
    } else {
      LexQuoted(x, value, rest);
    }
  }

  /** The separating blank closes the current word, and the printed argument becomes the next. */
  lemma LexNext(words: seq<string>, current: string, argument: string, rest: string)
    requires rest == "" || rest[0] == ' '
    ensures Lex(Lexer(words, current, true, Bare, false, false), " " + QuoteArgument(argument) + rest)
         == Lex(Lexer(words + [current], argument, true, Bare, false, false), rest)
  {
    var x, y := Lexer(words, current, true, Bare, false, false), Lexer(words + [current], "", false, Bare, false, false);
    var text := " " + QuoteArgument(argument) + rest;
    assert text == [' '] + (QuoteArgument(argument) + rest);
    ReadBlank(x, text);
    LexOne(x, text, y);
    LexArgument(y, argument, rest);
  }

  lemma TailHead(args: seq<string>)
    ensures QuotedTail(args) == "" || QuotedTail(args)[0] == ' '
  {
  }

  lemma LexEnd(words: seq<string>, current: string)
    ensures Lex(Lexer(words, current, true, Bare, false, false), "") == Some(ParsedWords(words + [current], false, false))
  {
  }

  lemma LexTailStep(words: seq<string>, current: string, args: seq<string>)
    requires args != []
    ensures Lex(Lexer(words, current, true, Bare, false, false), QuotedTail(args))
         == Lex(Lexer(words + [current], args[0], true, Bare, false, false), QuotedTail(args[1..]))
  {
    TailHead(args[1..]);
    LexNext(words, current, args[0], QuotedTail(args[1..]));
  }

  lemma {:induction false} LexTail(words: seq<string>, current: string, args: seq<string>)
    ensures Lex(Lexer(words, current, true, Bare, false, false), QuotedTail(args)) == Some(ParsedWords(words + [current] + args, false, false))
    decreases |args|
  {
    if args == [] {
      LexEnd(words, current);
      assert words + [current] + args == words + [current];
    } else {
      LexTailStep(words, current, args);
      LexTail(words + [current], args[0], args[1..]);
      assert words + [current] + [args[0]] + args[1..] == words + [current] + args;
    }
  }

  lemma QuotedHead(value: string)
    ensures var head := QuoteArgument(value);
            head != "" && !IsSpace(head[0]) && head[0] != '&'
  {
    if AllSafe(value) {
      assert Safe(value[0]);
    } else {
      assert QuoteArgument(value)[0] == '\'';
    }
  }

  lemma PlainArgvSource(body: string)
    requires body != "" && !IsSpace(body[0]) && body[0] != '&'
    ensures TrimStart(body) == body && ArgvSource(body) == body
  {
  }

  lemma DropCallOperator(text: string, body: string)
    requires text == "& " + body && TrimStart(body) == body
    ensures ArgvSource(text) == body
  {
    assert TrimStart(text) == text;
    assert text[1..] == [' '] + body && text[1..][1..] == body;
    assert TrimStart(text[1..]) == TrimStart(text[1..][1..]);
  }

  lemma SourceWithoutOperator(head: string, tail: string)
    requires head != "" && !IsSpace(head[0]) && head[0] != '&'
    ensures ArgvSource("" + head + tail) == head + tail
    ensures TrimStart(head + tail) == head + tail
  {
    assert "" + head + tail == head + tail;
    assert (head + tail)[0] == head[0];
    PlainArgvSource(head + tail);
  }

  lemma SourceWithOperator(head: string, tail: string)
    requires head != "" && !IsSpace(head[0]) && head[0] != '&'
    ensures ArgvSource("& " + head + tail) == head + tail
  {
    SourceWithoutOperator(head, tail);
    assert "& " + head + tail == "& " + (head + tail);
    DropCallOperator("& " + head + tail, head + tail);
  }

  lemma ArgvSourceOfDisplay(executable: string, args: seq<string>)
    ensures ArgvSource(Display(executable, args)) == QuoteArgument(executable) + QuotedTail(args)
  {
    QuotedHead(executable);
    if HasSpace(executable) {
      SourceWithOperator(QuoteArgument(executable), QuotedTail(args));
    } else {
      SourceWithoutOperator(QuoteArgument(executable), QuotedTail(args));
    }
  }

  lemma LexHead(argument: string, rest: string)
    requires rest == "" || rest[0] == ' '
    ensures Lex(FRESH, QuoteArgument(argument) + rest) == Lex(Lexer([], argument, true, Bare, false, false), rest)
  {
    LexArgument(FRESH, argument, rest);
  }

  lemma LexPrinted(executable: string, args: seq<string>)
    ensures Lex(FRESH, QuoteArgument(executable) + QuotedTail(args)) == Some(ParsedWords([executable] + args, false, false))
  {
    TailHead(args);
    LexHead(executable, QuotedTail(args));
    LexTail([], executable, args);
    assert [] + [executable] + args == [executable] + args;
  }

  /** Printer and parser undo each other, for every executable and every argument list. */
  lemma PrintedArgvIsReadBack(executable: string, args: seq<string>)
    ensures Lex(FRESH, ArgvSource(Display(executable, args))) == Some(ParsedWords([executable] + args, false, false))
  {
    ArgvSourceOfDisplay(executable, args);
    LexPrinted(executable, args);
  }

  /** Hence two argument lists are never displayed alike. */
  lemma DisplayIsInjective(executable: string, args: seq<string>, executable': string, args': seq<string>)
    requires Display(executable, args) == Display(executable', args')
    ensures executable == executable' && args == args'
  {
    PrintedArgvIsReadBack(executable, args);
    PrintedArgvIsReadBack(executable', args');
    assert ([executable] + args)[0] == ([executable'] + args')[0];
    assert ([executable] + args)[1..] == args && ([executable'] + args')[1..] == args';
  }

  // ----- how arguments are shown -----

  const DIGITS := "0123456789"
  const SHOWN_BARE := UPPER + LOWER + DIGITS + "_./:@%+=,\\-"

  lemma SafeIsShownBare(c: char)
    ensures Safe(c) <==> c in SHOWN_BARE
  {
    assert c in UPPER <==> 'A' <= c <= 'Z' by {
      Alphabet(UPPER, 'A', 'Z', c);
    }
    assert c in LOWER <==> 'a' <= c <= 'z' by {
      Alphabet(LOWER, 'a', 'z', c);
    }
    assert c in DIGITS <==> '0' <= c <= '9' by {
      Alphabet(DIGITS, '0', '9', c);
    }
    assert c in SHOWN_BARE <==> c in UPPER || c in LOWER || c in DIGITS || c in "_./:@%+=,\\-";
  }

  /** An argument is shown as it is exactly when it is not empty and made of letters, digits and a few
      marks; any other is put in single quotes. */
  lemma ShownBareIff(value: string)
    ensures QuoteArgument(value) == value <==> value != "" && forall i :: 0 <= i < |value| ==> value[i] in SHOWN_BARE
    ensures QuoteArgument(value) == value || QuoteArgument(value) == "'" + Doubled(value) + "'"
  {
    forall i | 0 <= i < |value| ensures Safe(value[i]) <==> value[i] in SHOWN_BARE {
      SafeIsShownBare(value[i]);
    }
    if !AllSafe(value) {
      DoubledGrows(value);
    }
  }

  lemma {:induction false} DoubledGrows(s: string)
    ensures |Doubled(s)| >= |s|
  {
    if s == "" {
    } else {
      DoubledGrows(s[1..]);
    }
  }

  /** The call operator stands before exactly the executables with a blank in them. */
  lemma CallOperatorIff(executable: string, args: seq<string>)
    ensures "& " <= Display(executable, args) <==> exists c :: c in executable && IsSpace(c)
  {
    QuotedHead(executable);
    if HasSpace(executable) {
      var i :| 0 <= i < |executable| && IsSpace(executable[i]);
      assert executable[i] in executable;
    } else {
      assert Display(executable, args)[0] == QuoteArgument(executable)[0];
    }
  }

  /** A leading call operator is dropped only with a blank behind it. */
  lemma CallOperatorIsDropped(pad: string, c: char, rest: string)
    requires Blank(pad)
    ensures ArgvSource(pad + "&" + [c] + rest) == if IsSpace(c) then TrimStart(rest) else pad + "&" + [c] + rest
  {
    var text := "&" + [c] + rest;
    TrimsPad(pad, text);
    assert pad + "&" + [c] + rest == pad + text && text[1..] == [c] + rest;
    if IsSpace(c) {
      TrimsPad([c], rest);
    }
  }

  lemma {:induction false} TrimsPad(pad: string, rest: string)
    requires Blank(pad)
    ensures TrimStart(pad + rest) == TrimStart(rest)
  {
    if pad == "" {
      assert pad + rest == rest;
    } else {
      assert (pad + rest)[1..] == pad[1..] + rest;
      TrimsPad(pad[1..], rest);
    }
  }

  /** Any other text is taken as it is. */
  lemma OtherTextIsKept(command: string)
    requires TrimStart(command) == "" || TrimStart(command)[0] != '&'
    ensures ArgvSource(command) == command
  {
  }

  // ----- JSON-style double quotes -----

  /** Every `"` preceded by a backslash, as generated commands write it. */
  function Escaped(s: string): string {
    if s == "" then "" else (if s[0] == '"' then "\\\"" else [s[0]]) + Escaped(s[1..])
  }

  predicate EndsInBackslash(s: string) {
    s != "" && s[|s| - 1] == '\\'
  }

  lemma {:induction false} LexEscaped(x: Lexer, value: string)
    requires x.quote == Double && x.words == [] && !x.shellSyntax
    ensures Lex(x, Escaped(value) + "\"")
         == if EndsInBackslash(value) then None
            else Some(ParsedWords([x.current + value], false, x.expansion || '$' in value))
    decreases |value|
  {
    var text := Escaped(value) + "\"";
    if value == "" {
      LexClose(x);
    } else if value == "\\" {
      assert Escaped(value[1..]) == "" && text == "\\\"";
      LexTwo(x, text, Taken(x, '"'));
    } else if value[0] == '"' {
      var rest := Escaped(value[1..]) + "\"";
      assert text == "\\\"" + rest;
      assert text[2..] == rest;
      LexTwo(x, text, Taken(x, '"'));
      LexEscaped(Taken(x, '"'), value[1..]);
      assert x.current + ['"'] + value[1..] == x.current + value;
    } else {
      var y := Taken(if value[0] == '$' then x.(expansion := true) else x, value[0]);
      LexPlain(x, value, y);
      LexEscaped(y, value[1..]);
      assert x.current + [value[0]] + value[1..] == x.current + value;
    }
  }

  lemma LexClose(x: Lexer)
    requires x.quote == Double && x.words == [] && !x.shellSyntax
    ensures Escaped("") + "\"" == "\"" && Lex(x, "\"") == Some(ParsedWords([x.current + ""], false, x.expansion))
  {
    var y := x.(quote := Bare, started := true);
    assert "\""[1..] == "" && x.current + "" == x.current;
    assert Flushed(y).words == [x.current];
    LexOne(x, "\"", y);
  }

  lemma LexPlain(x: Lexer, value: string, y: Lexer)
    requires x.quote == Double && value != "" && value[0] != '"' && value != "\\"
    requires y == Taken(if value[0] == '$' then x.(expansion := true) else x, value[0])
    ensures Lex(x, Escaped(value) + "\"") == Lex(y, Escaped(value[1..]) + "\"")
  {
    var rest := Escaped(value[1..]) + "\"";
    var text := Escaped(value) + "\"";
    assert text == [value[0]] + rest && text[1..] == rest;
    EscapedHead(value[1..]);
    LexOne(x, text, y);
  }

  /** An escaped text never starts with a bare double quote. */
  lemma EscapedHead(s: string)
    ensures s != "" ==> Escaped(s) != "" && Escaped(s)[0] != '"'
  {
  }

  /** A double-quoted word with escaped quotes reads back as its text, exactly when the text
      does not end in a backslash: then the closing quote is taken for an escaped one. */
  lemma DoubleQuotedIsReadBackIff(value: string)
    ensures Lex(FRESH, "\"" + Escaped(value) + "\"") == Some(ParsedWords([value], false, '$' in value)) <==> !EndsInBackslash(value)
  {
    var inner := Escaped(value) + "\"";
    var text := "\"" + Escaped(value) + "\"";
    assert text == ['"'] + inner && text[1..] == inner;
    var x := FRESH.(quote := Double, started := true);
    LexOne(FRESH, text, x);
    LexEscaped(x, value);
    assert x.current + value == value;
  }
}
