/** AND-OR lists as section 2.9.3 of the POSIX.1-2017 Shell Command Language defines them, the
    worker loop that runs guarded steps, and the theorem that the two agree. */
module AndOrLists {
  import opened Basics
  import opened Text
  import opened CommandWords
  import opened CommandSequence

  datatype AndOr = Cmd(command: string) | And(left: AndOr, right: string) | Or(left: AndOr, right: string)

  // ----- the reference grammar -----

  function SkipNewlines(toks: seq<Token>): (r: seq<Token>)
    ensures |r| <= |toks| && (r != [] ==> !r[0].Newline?)
  {
    if toks != [] && toks[0].Newline? then SkipNewlines(toks[1..]) else toks
  }

  /** An AND-OR list that starts with `left`, and what follows it. With `lenient`, an operator
      with nothing after it is dropped. */
  function ParseAndOr(left: AndOr, toks: seq<Token>, lenient: bool): (r: Option<(AndOr, seq<Token>)>)
    ensures r.Some? ==> |r.value.1| <= |toks|
    decreases |toks|
  {
    if toks == [] || !(toks[0].AndIf? || toks[0].OrIf?) then Some((left, toks))
    else
      var more := SkipNewlines(toks[1..]);
      if more == [] && lenient then Some((left, []))
      else if more == [] || !more[0].Word? then None
      else ParseAndOr(if toks[0].AndIf? then And(left, more[0].text) else Or(left, more[0].text), more[1..], lenient)
  }

  function ParseList(toks: seq<Token>, lenient: bool): Option<seq<AndOr>>
    decreases |toks|
  {
    var from := SkipNewlines(toks);
    if from == [] then Some([])
    else if !from[0].Word? then None
    else
      match ParseAndOr(Cmd(from[0].text), from[1..], lenient)
      case None => None
      case Some((first, rest)) =>
        if rest == [] then Some([first])
        else if rest[0].Word? then None
        else
          match ParseList(rest[1..], lenient)
          case None => None
          case Some(others) => Some([first] + others)
  }

  /** The token list ends, apart from line ends, in `&&` or `||`. */
  predicate Dangling(toks: seq<Token>, open: bool) {
    if toks == [] then open
    else Dangling(toks[1..], if toks[0].Newline? then open else toks[0].AndIf? || toks[0].OrIf?)
  }

  // ----- from lists to steps -----

  function FlatAndOr(x: AndOr): (parts: seq<Part>)
    ensures parts != [] && parts[0].runIf == Always
  {
    match x
    case Cmd(c) => [Part(c, Always)]
    case And(l, c) => FlatAndOr(l) + [Part(c, Success)]
    case Or(l, c) => FlatAndOr(l) + [Part(c, Failure)]
  }

  function Flat(list: seq<AndOr>): seq<Part> {
    if list == [] then [] else FlatAndOr(list[0]) + Flat(list[1..])
  }

  function Prepend(parts: seq<Part>, more: Option<seq<Part>>): Option<seq<Part>> {
    match more case None => None case Some(rest) => Some(parts + rest)
  }

  function FlatOption(list: Option<seq<AndOr>>): Option<seq<Part>> {
    match list case None => None case Some(l) => Some(Flat(l))
  }

  lemma {:induction false} StepsSkip(toks: seq<Token>, runIf: RunIf)
    ensures Steps(toks, runIf) == Steps(SkipNewlines(toks), runIf)
  {
    if toks != [] && toks[0].Newline? {
      StepsSkip(toks[1..], runIf);
    }
  }

  /** The steps that follow a command are those of the rest of its AND-OR list, then those of the remaining lists. */
  lemma {:induction false} StepsOfAndOr(left: AndOr, toks: seq<Token>)
    ensures match ParseAndOr(left, toks, true)
            case None => StepsAfter(toks) == None
            case Some((whole, rest)) =>
              Prepend(FlatAndOr(left), StepsAfter(toks)) == Prepend(FlatAndOr(whole), StepsAfter(rest))
    decreases |toks|
  {
    if toks != [] && (toks[0].AndIf? || toks[0].OrIf?) {
      var guard := GuardAfter(toks[0]);
      var more := SkipNewlines(toks[1..]);
      StepsSkip(toks[1..], guard);
      if more == [] {
        assert StepsAfter(toks) == Some([]);
      } else if more[0].Word? {
        var next := if toks[0].AndIf? then And(left, more[0].text) else Or(left, more[0].text);
        StepsOfAndOr(next, more[1..]);
        var step := [Part(more[0].text, guard)];
        assert FlatAndOr(next) == FlatAndOr(left) + step;
        if StepsAfter(more[1..]).Some? {
          var tail := StepsAfter(more[1..]).value;
          assert FlatAndOr(left) + (step + tail) == FlatAndOr(left) + step + tail;
        }
      }
    }
  }

  /** The steps of a text are exactly its AND-OR lists laid out in order. */
  lemma {:induction false} StepsOfList(toks: seq<Token>)
    ensures Steps(toks, Always) == FlatOption(ParseList(toks, true))
    decreases |toks|
  {
    var from := SkipNewlines(toks);
    StepsSkip(toks, Always);
    if from != [] && from[0].Word? {
      var head := Cmd(from[0].text);
      StepsOfAndOr(head, from[1..]);
      var parsed := ParseAndOr(head, from[1..], true);
      if parsed.Some? {
        AndOrStops(head, from[1..]);
        var (first, rest) := parsed.value;
        if rest == [] {
          assert FlatAndOr(first) + [] == FlatAndOr(first);
          assert Flat([first]) == FlatAndOr(first) + Flat([]);
        } else {
          StepsOfList(rest[1..]);
          var others := ParseList(rest[1..], true);
          if others.Some? {
            assert ([first] + others.value)[1..] == others.value;
          }
        }
      }
    }
  }

  /** An AND-OR list ends at the end of the text or before something that is not an operator. */
  lemma {:induction false} AndOrStops(left: AndOr, toks: seq<Token>)
    requires ParseAndOr(left, toks, true).Some?
    ensures var rest := ParseAndOr(left, toks, true).value.1;
            rest == [] || !(rest[0].AndIf? || rest[0].OrIf?)
    decreases |toks|
  {
    if toks != [] && (toks[0].AndIf? || toks[0].OrIf?) {
      var more := SkipNewlines(toks[1..]);
      if more != [] {
        AndOrStops(if toks[0].AndIf? then And(left, more[0].text) else Or(left, more[0].text), more[1..]);
      }
    }
  }

  // ----- what the lenient reading adds to the standard one -----

  lemma {:induction false} DanglingSkip(toks: seq<Token>, open: bool)
    ensures Dangling(toks, open) == Dangling(SkipNewlines(toks), open)
  {
    if toks != [] && toks[0].Newline? {
      DanglingSkip(toks[1..], open);
    }
  }

  lemma {:induction false} AndOrStrict(left: AndOr, toks: seq<Token>)
    requires ParseAndOr(left, toks, true).Some?
    ensures var (whole, rest) := ParseAndOr(left, toks, true).value;
            ParseAndOr(left, toks, false) ==
            if rest == [] && Dangling(toks, false) then None else Some((whole, rest))
    ensures ParseAndOr(left, toks, true).value.1 != [] ==> Dangling(toks, false) == Dangling(ParseAndOr(left, toks, true).value.1, false)
    decreases |toks|
  {
    if toks != [] && (toks[0].AndIf? || toks[0].OrIf?) {
      var more := SkipNewlines(toks[1..]);
      DanglingSkip(toks[1..], true);
      if more != [] {
        AndOrStrict(if toks[0].AndIf? then And(left, more[0].text) else Or(left, more[0].text), more[1..]);
      }
    }
  }

  /** The standard grammar reads the same lists, except that it refuses a dangling operator. */
  lemma {:induction false} StrictIffNotDangling(toks: seq<Token>)
    requires ParseList(toks, true).Some?
    ensures ParseList(toks, false) == if Dangling(toks, false) then None else ParseList(toks, true)
    decreases |toks|
  {
    var from := SkipNewlines(toks);
    DanglingSkip(toks, false);
    if from == [] {
    } else {
      var head := Cmd(from[0].text);
      AndOrStrict(head, from[1..]);
      AndOrStops(head, from[1..]);
      var (first, rest) := ParseAndOr(head, from[1..], true).value;
      if rest != [] {
        StrictIffNotDangling(rest[1..]);
      }
    }
  }

  lemma {:induction false} StrictImpliesLenient(toks: seq<Token>)
    requires ParseList(toks, false).Some?
    ensures ParseList(toks, true) == ParseList(toks, false)
    decreases |toks|
  {
    var from := SkipNewlines(toks);
    if from == [] {
    } else {
      var head := Cmd(from[0].text);
      AndOrLenient(head, from[1..]);
      var (first, rest) := ParseAndOr(head, from[1..], false).value;
      if rest != [] {
        StrictImpliesLenient(rest[1..]);
      }
    }
  }

  lemma {:induction false} AndOrLenient(left: AndOr, toks: seq<Token>)
    requires ParseAndOr(left, toks, false).Some?
    ensures ParseAndOr(left, toks, true) == ParseAndOr(left, toks, false)
    decreases |toks|
  {
    if toks != [] && (toks[0].AndIf? || toks[0].OrIf?) {
      var more := SkipNewlines(toks[1..]);
      AndOrLenient(if toks[0].AndIf? then And(left, more[0].text) else Or(left, more[0].text), more[1..]);
    }
  }

  // ----- execution -----

  /** What running a command does to the outside: its exit code and whether a signal ended it,
      both free to depend on everything run before. `killed` is asked between steps. */
  datatype World = World(code: (seq<string>, string) -> int, signalled: (seq<string>, string) -> bool, killed: seq<string> -> bool)

  /** The commands run so far, in order, and the status of the last one. */
  datatype State = State(ran: seq<string>, status: Option<int>)

  function RunOne(s: State, command: string, w: World): State {
    State(s.ran + [command], Some(w.code(s.ran, command)))
  }

  /** The reference: `&&` runs its right side after success, `||` after failure. */
  function EvalAndOr(x: AndOr, s: State, w: World): (r: State)
    ensures r.status.Some?
  {
    match x
    case Cmd(c) => RunOne(s, c, w)
    case And(l, c) =>
      var m := EvalAndOr(l, s, w);
      if m.status.value == 0 then RunOne(m, c, w) else m
    case Or(l, c) =>
      var m := EvalAndOr(l, s, w);
      if m.status.value != 0 then RunOne(m, c, w) else m
  }

  function EvalList(list: seq<AndOr>, s: State, w: World): State {
    if list == [] then s else EvalList(list[1..], EvalAndOr(list[0], s, w), w)
  }

  predicate ShouldRun(runIf: RunIf, previous: Option<int>) {
    if runIf == Always || previous == None then true
    else if runIf == Success then previous.value == 0
    else previous.value != 0
  }

  /** The worker with neither signals nor kills. */
  function RunAll(parts: seq<Part>, s: State, w: World): State {
    if parts == [] then s
    else RunAll(parts[1..], if ShouldRun(parts[0].runIf, s.status) then RunOne(s, parts[0].command, w) else s, w)
  }

  lemma {:induction false} RunAllConcat(a: seq<Part>, b: seq<Part>, s: State, w: World)
    ensures RunAll(a + b, s, w) == RunAll(b, RunAll(a, s, w), w)
  {
    if a == [] {
      assert a + b == b;
    } else {
      assert (a + b)[1..] == a[1..] + b;
      RunAllConcat(a[1..], b, if ShouldRun(a[0].runIf, s.status) then RunOne(s, a[0].command, w) else s, w);
    }
  }

  lemma RunLast(a: seq<Part>, p: Part, s: State, w: World)
    ensures var m := RunAll(a, s, w);
            RunAll(a + [p], s, w) == if ShouldRun(p.runIf, m.status) then RunOne(m, p.command, w) else m
  {
    RunAllConcat(a, [p], s, w);
    var m := RunAll(a, s, w);
    assert [p][1..] == [];
    assert RunAll([], m, w) == m;
  }

  lemma {:induction false} RunAndOr(x: AndOr, s: State, w: World)
    ensures RunAll(FlatAndOr(x), s, w) == EvalAndOr(x, s, w)
  {
    match x
    case Cmd(c) =>
      assert [Part(c, Always)] == [] + [Part(c, Always)];
      RunLast([], Part(c, Always), s, w);
    case And(l, c) =>
      RunAndOr(l, s, w);
      RunLast(FlatAndOr(l), Part(c, Success), s, w);
    case Or(l, c) =>
      RunAndOr(l, s, w);
      RunLast(FlatAndOr(l), Part(c, Failure), s, w);
  }

  lemma {:induction false} RunFlat(list: seq<AndOr>, s: State, w: World)
    ensures RunAll(Flat(list), s, w) == EvalList(list, s, w)
  {
    if list == [] {
    } else {
      RunAllConcat(FlatAndOr(list[0]), Flat(list[1..]), s, w);
      RunAndOr(list[0], s, w);
      RunFlat(list[1..], EvalAndOr(list[0], s, w), w);
    }
  }

  const IDLE := State([], None)

  /** The splitter accepts a text exactly when it is an AND-OR list of at least two commands, a
      dangling operator at the end being dropped. */
  lemma SplitAcceptsIff(command: string)
    ensures SplitSequence(command).Some? <==>
            var toks := Tokens("", Bare, false, command);
            toks.Some? && ParseList(toks.value, true).Some? && |Flat(ParseList(toks.value, true).value)| > 1
  {
    var toks := Tokens("", Bare, false, command);
    if toks.Some? {
      StepsOfList(toks.value);
      if Steps(toks.value, Always).Some? {
        assert [] + Steps(toks.value, Always).value == Steps(toks.value, Always).value;
      }
    }
  }

  /** Compilation preserves meaning: for every accepted text without a dangling operator, the
      guarded steps run the same commands in the same order, with the same final status, as
      the AND-OR list the text is. */
  lemma CompilationPreservesMeaning(command: string, w: World)
    requires SplitSequence(command).Some?
    requires !Dangling(Tokens("", Bare, false, command).value, false)
    ensures var toks := Tokens("", Bare, false, command).value;
            && ParseList(toks, false).Some?
            && RunAll(SplitSequence(command).value, IDLE, w) == EvalList(ParseList(toks, false).value, IDLE, w)
  {
    var toks := Tokens("", Bare, false, command).value;
    StepsOfList(toks);
    StrictIffNotDangling(toks);
    var list := ParseList(toks, true).value;
    assert [] + Flat(list) == Flat(list);
    RunFlat(list, IDLE, w);
  }

  // ----- the lexical reference: spelling a list out -----

  function Spelling(t: Token): string {
    match t
    case Word(text) => text
    case AndIf => "&&"
    case OrIf => "||"
    case Semi => ";"
    case Newline => "\n"
  }

  function Spell(toks: seq<Token>): string {
    if toks == [] then "" else Spelling(toks[0]) + Spell(toks[1..])
  }

  /** On its own the text is one command: no top-level operator, every quote closed, nothing to trim. */
  predicate Closed(text: string) {
    text != "" && Tokens("", Bare, false, text) == Some([Word(text)])
  }

  predicate Spellable(toks: seq<Token>) {
    && (forall i :: 0 <= i < |toks| && toks[i].Word? ==> Closed(toks[i].text))
    && (forall i :: 0 <= i < |toks| - 1 && toks[i].Word? ==> !toks[i + 1].Word?)
  }

  lemma TakeExtends(quote: Quote, escaped: bool, s: string, more: string)
    requires s != "" && Classify(quote, escaped, s).Take? && more != "" && more[0] != '\''
    ensures Classify(quote, escaped, s + more) == Classify(quote, escaped, s)
  {
  }

  lemma OpIsNotAlone(segment: string, quote: Quote, escaped: bool, s: string, text: string)
    requires s != "" && Classify(quote, escaped, s).Op?
    ensures Tokens(segment, quote, escaped, s) != Some([Word(text)])
  {
    var toks := Tokens(segment, quote, escaped, s);
    if toks.Some? {
      assert toks.value[|WordOf(segment)|] == Classify(quote, escaped, s).token;
    }
  }

  /** A closed command is read as itself whatever operator follows it. */
  lemma {:induction false} WordThenOp(segment: string, quote: Quote, escaped: bool, s: string, op: Token, rest: string, text: string)
    requires !op.Word? && Tokens(segment, quote, escaped, s) == Some([Word(text)])
    ensures Tokens(segment, quote, escaped, s + Spelling(op) + rest) ==
            match Tokens("", Bare, false, rest) case None => None case Some(more) => Some([Word(text), op] + more)
    decreases |s|
  {
    var tail := Spelling(op) + rest;
    var whole := s + Spelling(op) + rest;
    assert whole == s + tail;
    if s == "" {
      assert whole == tail;
      OpSpelled(op, rest);
      TokensOp(segment, quote, escaped, whole, |Spelling(op)|, op);
      if Tokens("", Bare, false, rest).Some? {
        assert WordOf(segment) + [op] == [Word(text), op];
      }
    } else {
      var h := Classify(quote, escaped, s);
      if h.Op? { OpIsNotAlone(segment, quote, escaped, s, text); }
      TakeExtends(quote, escaped, s, tail);
      assert whole[..h.size] == s[..h.size] && whole[h.size..] == s[h.size..] + Spelling(op) + rest;
      WordThenOp(segment + s[..h.size], h.quote, h.escaped, s[h.size..], op, rest, text);
    }
  }

  lemma OpSpelled(op: Token, rest: string)
    requires !op.Word?
    ensures var s := Spelling(op) + rest;
            s != "" && Classify(Bare, false, s) == Op(|Spelling(op)|, op) && s[|Spelling(op)|..] == rest
  {
  }

  /** Every operator is read as itself, and every closed command as one command. */
  lemma {:induction false} SpelledIsRead(toks: seq<Token>)
    requires Spellable(toks)
    ensures Tokens("", Bare, false, Spell(toks)) == Some(toks)
    decreases |toks|
  {
    assert Trim("") == "";
    if toks == [] {
    } else if !toks[0].Word? {
      SpelledIsRead(toks[1..]);
      OpSpelled(toks[0], Spell(toks[1..]));
      TokensOp("", Bare, false, Spell(toks), |Spelling(toks[0])|, toks[0]);
      assert [] + [toks[0]] + toks[1..] == toks;
    } else if |toks| == 1 {
      assert toks[1..] == [] && toks[0].text + "" == toks[0].text && toks == [toks[0]];
    } else {
      var rest := toks[1..][1..];
      SpelledIsRead(rest);
      WordThenOp("", Bare, false, toks[0].text, toks[1], Spell(rest), toks[0].text);
      assert Spell(toks) == toks[0].text + (Spelling(toks[1]) + Spell(rest));
      assert Spell(toks) == toks[0].text + Spelling(toks[1]) + Spell(rest);
      assert [toks[0], toks[1]] + rest == toks;
    }
  }

  /** Spelled out as text, an AND-OR list of at least two commands is split, and its steps run
      exactly what the list means. */
  lemma SpelledListRuns(toks: seq<Token>, w: World)
    requires Spellable(toks) && ParseList(toks, false).Some? && |Flat(ParseList(toks, false).value)| > 1
    ensures SplitSequence(Spell(toks)) == Some(Flat(ParseList(toks, false).value))
    ensures RunAll(SplitSequence(Spell(toks)).value, IDLE, w) == EvalList(ParseList(toks, false).value, IDLE, w)
  {
    SpelledIsRead(toks);
    StrictImpliesLenient(toks);
    StepsOfList(toks);
    var list := ParseList(toks, false).value;
    assert [] + Flat(list) == Flat(list);
    RunFlat(list, IDLE, w);
  }

  const DANGLING_TOKENS: seq<Token> := [Word("a"), Semi, Word("b"), AndIf]

  /** A dangling operator is accepted although the standard grammar refuses it. */
  lemma DanglingIsAccepted()
    ensures SplitSequence("a;b&&").Some? && Tokens("", Bare, false, "a;b&&").Some?
    ensures ParseList(Tokens("", Bare, false, "a;b&&").value, false).None?
  {
    DanglingRead();
    DanglingParsed();
    StrictIffNotDangling(DANGLING_TOKENS);
    SplitAcceptsIff("a;b&&");
  }

  lemma DanglingRead()
    ensures Tokens("", Bare, false, "a;b&&") == Some(DANGLING_TOKENS)
  {
    ClosedLetter("a");
    ClosedLetter("b");
    WordThenOp("", Bare, false, "b", AndIf, "", "b");
    WordThenOp("", Bare, false, "a", Semi, "b&&", "a");
    assert "b" + "&&" + "" == "b&&" && "a" + ";" + "b&&" == "a;b&&";
    assert Trim("") == "" && Tokens("", Bare, false, "") == Some([]);
    assert [Word("b"), AndIf] + [] == [Word("b"), AndIf];
    assert [Word("a"), Semi] + [Word("b"), AndIf] == DANGLING_TOKENS;
  }

  lemma DanglingParsed()
    ensures ParseList(DANGLING_TOKENS, true) == Some([Cmd("a")] + [Cmd("b")]) && Dangling(DANGLING_TOKENS, false)
    ensures |Flat([Cmd("a")] + [Cmd("b")])| == 2
  {
    var toks := DANGLING_TOKENS;
    assert toks[1..] == [Semi, Word("b"), AndIf] && toks[1..][1..] == [Word("b"), AndIf] && toks[1..][1..][1..] == [AndIf] && [AndIf][1..] == [];
    assert ParseAndOr(Cmd("b"), [AndIf], true) == Some((Cmd("b"), []));
    assert ParseList([Word("b"), AndIf], true) == Some([Cmd("b")]);
    assert ParseAndOr(Cmd("a"), toks[1..], true) == Some((Cmd("a"), toks[1..]));
    assert Dangling([AndIf], false) && Dangling([Word("b"), AndIf], false) && Dangling(toks[1..], false);
    FlatTwo("a", "b");
  }

  lemma ClosedLetter(s: string)
    requires |s| == 1 && 'a' <= s[0] <= 'z'
    ensures Closed(s)
  {
    assert Classify(Bare, false, s) == Take(1, Bare, false);
    assert s[..1] == s && s[1..] == "" && "" + s == s;
    assert TrimStart(s) == s && TrimEnd(s) == s;
  }

  lemma FlatTwo(a: string, b: string)
    ensures |Flat([Cmd(a)] + [Cmd(b)])| == 2
  {
    assert ([Cmd(a)] + [Cmd(b)])[1..] == [Cmd(b)] && [Cmd(b)][1..] == [];
    assert Flat([Cmd(b)]) == [Part(b, Always)] + [];
  }
}
