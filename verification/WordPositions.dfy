/** What the word parser makes of a text, told position by position: which quotes a character stands
    in, what it adds to its word, and which characters the flags answer for. */
module WordPositions {
  import opened Basics
  import opened Text
  import opened CommandWords

  /** The quotes that position `i` stands in. A mark opens quotes outside them and closes its own
      kind inside; in double quotes a mark behind a backslash closes nothing. */
  function QuoteAt(s: string, i: nat): Quote
    requires i <= |s|
  {
    if i == 0 then Bare
    else
      var c := s[i - 1];
      match QuoteAt(s, i - 1)
      case Bare => if c == '\'' then Single else if c == '\"' then Double else Bare
      case Single => if c == '\'' then Bare else Single
      case Double => if c == '\"' && !(i > 1 && s[i - 2] == '\\') then Bare else Double
  }

  /** What the character adds to its word: nothing for a mark or an escaping backslash, except that
      a single mark right behind a closed one, and a double one behind a backslash, stand for themselves. */
  function Says(s: string, i: nat): string
    requires i < |s|
  {
    var c, before := s[i], if i > 0 then s[i - 1] else ' ';
    match QuoteAt(s, i)
    case Bare => if c == '\"' || (c == '\'' && !(before == '\'' && QuoteAt(s, i - 1) == Single)) then "" else [c]
    case Single => if c == '\'' then "" else [c]
    case Double => if (c == '\"' && before != '\\') || (c == '\\' && i + 1 < |s| && s[i + 1] == '\"') then "" else [c]
  }

  predicate Separates(s: string, i: nat)
    requires i < |s|
  {
    QuoteAt(s, i) == Bare && IsSpace(s[i])
  }

  /** The words ended among the first `i` characters, and the one that is being written. */
  function WordsTo(s: string, i: nat): (seq<string>, Option<string>)
    requires i <= |s|
  {
    if i == 0 then ([], None)
    else
      var (words, open) := WordsTo(s, i - 1);
      if Separates(s, i - 1) then (if open.Some? then words + [open.value] else words, None)
      else (words, Some((if open.Some? then open.value else "") + Says(s, i - 1)))
  }

  predicate ShellMark(c: char) {
    c in ";|&<>\r\n"
  }

  /** Some position before `upTo` stands outside quotes and holds shell syntax. */
  ghost predicate HasShellSyntax(s: string, upTo: nat)
    requires upTo <= |s|
  {
    exists i :: 0 <= i < upTo && QuoteAt(s, i) == Bare && ShellMark(s[i])
  }

  predicate Expands(s: string, i: nat)
    requires i < |s|
  {
    (QuoteAt(s, i) == Bare && s[i] in "$`") || (QuoteAt(s, i) == Double && s[i] == '$')
  }

  ghost predicate HasExpansion(s: string, upTo: nat)
    requires upTo <= |s|
  {
    exists i :: 0 <= i < upTo && Expands(s, i)
  }

  // ----- the parser agrees -----

  /** The parser's variables after the first `i` characters, where it never stands between the two
      characters of a doubled or escaped mark. */
  ghost predicate Agrees(x: Lexer, s: string, i: nat)
    requires i <= |s|
  {
    && x.quote == QuoteAt(s, i)
    && WordsTo(s, i) == (x.words, if x.started then Some(x.current) else None)
    && (!x.started ==> x.current == "")
    && (x.shellSyntax <==> HasShellSyntax(s, i)) && (x.expansion <==> HasExpansion(s, i))
    && (0 < i < |s| && x.quote == Double && s[i] == '\"' ==> s[i - 1] != '\\')
    && (0 < i < |s| && x.quote == Bare && s[i] == '\'' ==> !(s[i - 1] == '\'' && QuoteAt(s, i - 1) == Single))
  }

  lemma FlagsGrow(s: string, i: nat)
    requires i < |s|
    ensures HasShellSyntax(s, i + 1) <==> HasShellSyntax(s, i) || (QuoteAt(s, i) == Bare && ShellMark(s[i]))
    ensures HasExpansion(s, i + 1) <==> HasExpansion(s, i) || Expands(s, i)
  {
  }

  /** Two characters at once: a doubled or an escaped mark. */
  lemma AgreesTwo(x: Lexer, s: string, i: nat)
    requires i + 1 < |s| && Agrees(x, s, i)
    requires (x.quote == Double && s[i] == '\\' && s[i + 1] == '\"') || (x.quote == Single && s[i] == '\'' && s[i + 1] == '\'')
    ensures Agrees(Taken(x, s[i + 1]), s, i + 2)
  {
    FlagsGrow(s, i);
    FlagsGrow(s, i + 1);
    assert QuoteAt(s, i + 1) == if x.quote == Double then Double else Bare;
    assert Says(s, i) == "" && Says(s, i + 1) == [s[i + 1]];
    assert QuoteAt(s, i + 2) == x.quote;
    assert x.current + "" == x.current && "" + "" + [s[i + 1]] == [] + [s[i + 1]];
    assert x.current + "" + [s[i + 1]] == x.current + [s[i + 1]];
  }

  lemma AgreesQuoted(x: Lexer, s: string, i: nat)
    requires i < |s| && Agrees(x, s, i) && x.quote != Bare && Read(x, s[i..]).1 == 1
    ensures Agrees(Read(x, s[i..]).0, s, i + 1)
  {
    FlagsGrow(s, i);
    assert s[i..][0] == s[i] && (i + 1 < |s| ==> s[i..][1] == s[i + 1]);
    assert x.current + "" == x.current && "" + [s[i]] == [] + [s[i]];
  }

  lemma AgreesBare(x: Lexer, s: string, i: nat)
    requires i < |s| && Agrees(x, s, i) && x.quote == Bare
    ensures Read(x, s[i..]).1 == 1 && Agrees(Read(x, s[i..]).0, s, i + 1)
  {
    FlagsGrow(s, i);
    assert s[i..][0] == s[i] && (i + 1 < |s| ==> s[i..][1] == s[i + 1]);
    assert x.current + "" == x.current && "" + [s[i]] == [] + [s[i]];
  }

  lemma AgreesStep(x: Lexer, s: string, i: nat)
    requires i < |s| && Agrees(x, s, i)
    ensures var (y, n) := Read(x, s[i..]); i + n <= |s| && Agrees(y, s, i + n)
  {
    assert s[i..][0] == s[i] && (i + 1 < |s| ==> s[i..][1] == s[i + 1]);
    if x.quote == Bare {
      AgreesBare(x, s, i);
    } else if Read(x, s[i..]).1 == 1 {
      AgreesQuoted(x, s, i);
    } else {
      AgreesTwo(x, s, i);
    }
  }

  /** What the positions say of the whole text. */
  ghost predicate AsPositions(r: Option<ParsedWords>, s: string) {
    var (words, open) := WordsTo(s, |s|);
    && (r.Some? <==> QuoteAt(s, |s|) == Bare)
    && (r.Some? ==>
          && r.value.words == (if open.Some? then words + [open.value] else words)
          && (r.value.shellSyntax <==> HasShellSyntax(s, |s|)) && (r.value.expansion <==> HasExpansion(s, |s|)))
  }

  lemma LexEnds(x: Lexer, s: string)
    requires Agrees(x, s, |s|)
    ensures AsPositions(Lex(x, ""), s)
  {
  }

  lemma {:induction false} LexAgrees(x: Lexer, s: string, i: nat)
    requires i <= |s| && Agrees(x, s, i)
    ensures AsPositions(Lex(x, s[i..]), s)
    decreases |s| - i
  {
    if i == |s| {
      LexEnds(x, s);
    } else {
      var (y, n) := Read(x, s[i..]);
      AgreesStep(x, s, i);
      assert s[i..][n..] == s[i + n..];
      LexAgrees(y, s, i + n);
    }
  }

  /** A text parses exactly when no quotes are open at its end; its words are those of its positions;
      and the flags answer exactly for shell syntax outside quotes, and for a dollar sign or a backtick
      outside quotes or a dollar sign inside double ones. */
  lemma ParsedByPosition(s: string)
    ensures var r := Lex(FRESH, s);
            var (words, open) := WordsTo(s, |s|);
            && (r.Some? <==> QuoteAt(s, |s|) == Bare)
            && (r.Some? ==>
                  && r.value.words == (if open.Some? then words + [open.value] else words)
                  && (r.value.shellSyntax <==> exists i :: 0 <= i < |s| && QuoteAt(s, i) == Bare && ShellMark(s[i]))
                  && (r.value.expansion <==> exists i :: 0 <= i < |s| && Expands(s, i)))
  {
    assert s[0..] == s;
    LexAgrees(FRESH, s, 0);
  }
}
