/** What the two splitters make of a text, told position by position: which characters stand outside
    quotes and escapes, which of them are operators, and what text stands between these. */
module SplitPositions {
  import opened Basics
  import opened Text
  import opened CommandWords
  import opened CommandSequence
  import opened CommandPipeline

  datatype Place = Place(quote: Quote, escaped: bool)

  const TOP := Place(Bare, false)

  /** Where position `i` stands. A backtick escapes the next character outside single quotes. A mark
      opens quotes outside them and closes its own kind inside. For the pipe splitter, `pipes`, a
      double mark right behind a backslash closes nothing. */
  function PlaceAt(s: string, i: nat, pipes: bool): Place
    requires i <= |s|
  {
    if i == 0 then TOP
    else
      var c, before := s[i - 1], PlaceAt(s, i - 1, pipes);
      if before.escaped then Place(before.quote, false)
      else
        match before.quote
        case Bare => if c == '`' then Place(Bare, true) else Place(if c == '\'' then Single else if c == '\"' then Double else Bare, false)
        case Single => Place(if c == '\'' then Bare else Single, false)
        case Double =>
          if c == '`' then Place(Double, true)
          else if c == '\"' && !(pipes && BehindBackslash(s, i - 1)) then TOP
          else before
  }

  /** The character before position `i` is a backslash inside double quotes, itself not escaped. */
  predicate BehindBackslash(s: string, i: nat)
    requires i <= |s|
  {
    i > 0 && s[i - 1] == '\\' && PlaceAt(s, i - 1, true) == Place(Double, false)
  }

  predicate TopAt(s: string, i: nat, pipes: bool)
    requires i < |s|
  {
    PlaceAt(s, i, pipes) == TOP
  }

  // ----- sequences -----

  /** The second character of `&&` or `||`: the pairs are counted from the left. */
  predicate SecondAt(s: string, i: nat)
    requires i < |s|
  {
    i > 0 && s[i] in "&|" && s[i - 1] == s[i] && TopAt(s, i - 1, false) && !SecondAt(s, i - 1)
  }

  /** A `&` or `|` outside quotes that belongs to no pair. */
  predicate LoneAt(s: string, i: nat)
    requires i < |s|
  {
    TopAt(s, i, false) && s[i] in "&|" && !SecondAt(s, i) && (i + 1 < |s| ==> s[i + 1] != s[i])
  }

  /** The operator that ends with position `i`, as its width and its token. */
  function OperatorAt(s: string, i: nat): Option<(nat, Token)>
    requires i < |s|
  {
    if !TopAt(s, i, false) then None
    else if SecondAt(s, i) then Some((2, if s[i] == '&' then AndIf else OrIf))
    else if s[i] == ';' then Some((1, Semi))
    else if s[i] == '\n' then Some((if i > 0 && s[i - 1] == '\r' && TopAt(s, i - 1, false) then 2 else 1, Newline))
    else if s[i] == '\r' && (i + 1 < |s| ==> s[i + 1] != '\n') then Some((1, Newline))
    else None
  }

  /** Nothing that stands at `i` began before it. */
  predicate FreshAt(s: string, i: nat)
    requires i <= |s|
  {
    i < |s| ==> !SecondAt(s, i) && (i > 0 && s[i] == '\n' && s[i - 1] == '\r' ==> !TopAt(s, i - 1, false))
  }

  /** The operators that end from position `i` on, and between them the texts that are not blank, the
      first begun at `start`. */
  function TokensFrom(s: string, start: nat, i: nat): seq<Token>
    requires start <= i <= |s| && (start == i ==> FreshAt(s, i))
    decreases |s| - i
  {
    if i == |s| then WordOf(s[start..])
    else
      match OperatorAt(s, i)
      case None => TokensFrom(s, start, i + 1)
      case Some((width, t)) => WordOf(s[start..i + 1 - width]) + [t] + TokensFrom(s, i + 1, i + 1)
  }

  ghost predicate NoneAlone(s: string, from: nat) {
    forall i :: from <= i < |s| ==> !LoneAt(s, i)
  }

  lemma HeadAt(s: string, i: nat, quote: Quote, escaped: bool)
    requires i < |s| && PlaceAt(s, i, false) == Place(quote, escaped)
    ensures Classify(quote, escaped, s[i..]) == Classify(quote, escaped, if i + 1 < |s| then [s[i], s[i + 1]] else [s[i]])
  {
    assert s[i..][0] == s[i] && (i + 1 < |s| ==> s[i..][1] == s[i + 1]);
  }

  lemma TakesOne(s: string, i: nat, quote: Quote, escaped: bool, h: Head)
    requires i < |s| && PlaceAt(s, i, false) == Place(quote, escaped) && FreshAt(s, i)
    requires h == Classify(quote, escaped, s[i..]) && h.Take? && h.size == 1
    ensures PlaceAt(s, i + 1, false) == Place(h.quote, h.escaped)
    ensures OperatorAt(s, i).None? && !LoneAt(s, i) && FreshAt(s, i + 1)
  {
    HeadAt(s, i, quote, escaped);
  }

  lemma TakesTwo(s: string, i: nat, quote: Quote, escaped: bool, h: Head)
    requires i < |s| && PlaceAt(s, i, false) == Place(quote, escaped)
    requires h == Classify(quote, escaped, s[i..]) && h.Take? && h.size == 2
    ensures i + 2 <= |s| && PlaceAt(s, i + 2, false) == Place(h.quote, h.escaped)
    ensures OperatorAt(s, i).None? && !LoneAt(s, i) && OperatorAt(s, i + 1).None? && !LoneAt(s, i + 1) && FreshAt(s, i + 2)
  {
    HeadAt(s, i, quote, escaped);
    assert PlaceAt(s, i + 1, false) == TOP;
  }

  lemma OperatorEnds(s: string, i: nat, quote: Quote, escaped: bool, h: Head)
    requires i < |s| && PlaceAt(s, i, false) == Place(quote, escaped) && FreshAt(s, i)
    requires h == Classify(quote, escaped, s[i..]) && h.Op?
    ensures h.width == 1 || h.width == 2
    ensures h.width == 2 ==> i + 2 <= |s| && OperatorAt(s, i).None? && !LoneAt(s, i)
    ensures OperatorAt(s, i + h.width - 1) == Some((h.width, h.token)) && !LoneAt(s, i + h.width - 1)
    ensures PlaceAt(s, i + h.width, false) == TOP && FreshAt(s, i + h.width)
  {
    HeadAt(s, i, quote, escaped);
    assert PlaceAt(s, i + 1, false) == TOP;
    if h.width == 2 {
      assert PlaceAt(s, i + 2, false) == TOP;
    }
  }

  lemma LoneEnds(s: string, i: nat, quote: Quote, escaped: bool)
    requires i < |s| && PlaceAt(s, i, false) == Place(quote, escaped) && FreshAt(s, i)
    requires Classify(quote, escaped, s[i..]).Unsupported?
    ensures LoneAt(s, i)
  {
    HeadAt(s, i, quote, escaped);
  }

  /** What the positions from `i` on make of the text, inside the command that began at `start`. */
  ghost function Expected(s: string, start: nat, i: nat): Option<seq<Token>>
    requires start <= i <= |s| && (start == i ==> FreshAt(s, i))
  {
    if PlaceAt(s, |s|, false) == TOP && NoneAlone(s, i) then Some(TokensFrom(s, start, i)) else None
  }

  /** The splitter, standing at `i` in the command that began at `start`, reads what is expected. */
  ghost predicate Agreed(s: string, start: nat, i: nat)
    requires start <= i <= |s| && (start == i ==> FreshAt(s, i))
  {
    Tokens(s[start..i], PlaceAt(s, i, false).quote, PlaceAt(s, i, false).escaped, s[i..]) == Expected(s, start, i)
  }

  lemma ExpectedQuiet(s: string, start: nat, i: nat)
    requires start <= i < |s| && (start == i ==> FreshAt(s, i)) && OperatorAt(s, i).None? && !LoneAt(s, i)
    ensures Expected(s, start, i) == Expected(s, start, i + 1)
  {
  }

  lemma ExpectedOperator(s: string, start: nat, from: nat, i: nat, t: Token)
    requires start <= from <= i < |s| && (start == i ==> FreshAt(s, i)) && OperatorAt(s, i) == Some((i + 1 - from, t)) && !LoneAt(s, i)
    requires FreshAt(s, i + 1)
    ensures Expected(s, start, i) ==
            match Expected(s, i + 1, i + 1) case None => None case Some(rest) => Some(WordOf(s[start..from]) + [t] + rest)
  {
  }

  /** A character of a command, or a doubled mark in single quotes: no operator ends there. */
  lemma ExpectedTake(s: string, start: nat, i: nat, quote: Quote, escaped: bool, h: Head)
    requires start <= i < |s| && PlaceAt(s, i, false) == Place(quote, escaped) && FreshAt(s, i)
    requires h == Classify(quote, escaped, s[i..]) && h.Take?
    ensures i + h.size <= |s| && PlaceAt(s, i + h.size, false) == Place(h.quote, h.escaped) && FreshAt(s, i + h.size)
    ensures Expected(s, start, i) == Expected(s, start, i + h.size)
  {
    if h.size == 1 {
      TakesOne(s, i, quote, escaped, h);
    } else {
      TakesTwo(s, i, quote, escaped, h);
      ExpectedQuiet(s, start, i + 1);
    }
    ExpectedQuiet(s, start, i);
  }

  lemma AgreedTake(s: string, start: nat, i: nat, h: Head)
    requires start <= i < |s| && FreshAt(s, i)
    requires h == Classify(PlaceAt(s, i, false).quote, PlaceAt(s, i, false).escaped, s[i..]) && h.Take?
    requires i + h.size <= |s| && FreshAt(s, i + h.size) && Agreed(s, start, i + h.size)
    ensures Agreed(s, start, i)
  {
    var place := PlaceAt(s, i, false);
    ExpectedTake(s, start, i, place.quote, place.escaped, h);
    ScanTakes(s, start, i, place.quote, place.escaped, Tokens(s[start..i], place.quote, place.escaped, s[i..]), h);
  }

  lemma AgreedLone(s: string, start: nat, i: nat)
    requires start <= i < |s| && FreshAt(s, i)
    requires Classify(PlaceAt(s, i, false).quote, PlaceAt(s, i, false).escaped, s[i..]).Unsupported?
    ensures Agreed(s, start, i)
  {
    LoneEnds(s, i, PlaceAt(s, i, false).quote, PlaceAt(s, i, false).escaped);
  }

  lemma ExpectedOp(s: string, start: nat, i: nat, quote: Quote, escaped: bool, h: Head)
    requires start <= i < |s| && PlaceAt(s, i, false) == Place(quote, escaped) && FreshAt(s, i)
    requires h == Classify(quote, escaped, s[i..]) && h.Op?
    ensures i + h.width <= |s| && PlaceAt(s, i + h.width, false) == TOP && FreshAt(s, i + h.width)
    ensures Expected(s, start, i) ==
            match Expected(s, i + h.width, i + h.width) case None => None case Some(rest) => Some(WordOf(s[start..i]) + [h.token] + rest)
  {
    OperatorEnds(s, i, quote, escaped, h);
    if h.width == 2 {
      ExpectedQuiet(s, start, i);
    }
    ExpectedOperator(s, start, i, i + h.width - 1, h.token);
  }

  lemma AgreedOp(s: string, start: nat, i: nat, h: Head)
    requires start <= i < |s| && FreshAt(s, i)
    requires h == Classify(PlaceAt(s, i, false).quote, PlaceAt(s, i, false).escaped, s[i..]) && h.Op?
    requires i + h.width <= |s| && FreshAt(s, i + h.width) && Agreed(s, i + h.width, i + h.width)
    ensures Agreed(s, start, i)
  {
    var place := PlaceAt(s, i, false);
    ExpectedOp(s, start, i, place.quote, place.escaped, h);
    Advance(s, start, i, h.width);
    TokensOp(s[start..i], place.quote, place.escaped, s[i..], h.width, h.token);
  }

  lemma AgreedEnd(s: string, start: nat)
    requires start <= |s|
    ensures Agreed(s, start, |s|)
  {
    assert s[start..|s|] == s[start..];
  }

  /** How far the splitter goes on from `i`. */
  function Width(h: Head): nat {
    match h
    case Take(n, _, _) => n
    case Op(n, _) => n
    case Unsupported => 1
  }

  lemma FreshNext(s: string, i: nat, h: Head)
    requires i < |s| && FreshAt(s, i) && !h.Unsupported?
    requires h == Classify(PlaceAt(s, i, false).quote, PlaceAt(s, i, false).escaped, s[i..])
    ensures 0 < Width(h) <= |s| - i && FreshAt(s, i + Width(h))
  {
    var place := PlaceAt(s, i, false);
    if h.Op? {
      OperatorEnds(s, i, place.quote, place.escaped, h);
    } else if h.size == 1 {
      TakesOne(s, i, place.quote, place.escaped, h);
    } else {
      TakesTwo(s, i, place.quote, place.escaped, h);
    }
  }

  lemma {:induction false} TokensAgree(s: string, start: nat, i: nat)
    requires start <= i <= |s| && FreshAt(s, i)
    ensures Agreed(s, start, i)
    decreases |s| - i
  {
    if i == |s| {
      AgreedEnd(s, start);
    } else {
      var h := Classify(PlaceAt(s, i, false).quote, PlaceAt(s, i, false).escaped, s[i..]);
      if h.Unsupported? {
        AgreedLone(s, start, i);
      } else {
        FreshNext(s, i, h);
        TokensAgree(s, if h.Op? then i + h.width else start, i + Width(h));
        if h.Op? {
          AgreedOp(s, start, i, h);
        } else {
          AgreedTake(s, start, i, h);
        }
      }
    }
  }

  /** A text is given to the shell whole exactly when its end stands in quotes or behind an escape, or
      some lone `&` or `|` stands outside them; otherwise its tokens are the operators that stand outside
      quotes and escapes, and between them the texts that are not blank. */
  lemma TokensByPosition(s: string)
    ensures var r := Tokens("", Bare, false, s);
            && (r.Some? <==> PlaceAt(s, |s|, false) == TOP && forall i :: 0 <= i < |s| ==> !LoneAt(s, i))
            && (r.Some? ==> r.value == TokensFrom(s, 0, 0))
  {
    assert s[0..] == s && s[0..0] == "";
    TokensAgree(s, 0, 0);
  }

  // ----- pipelines -----

  /** Outside quotes, what no pipeline can hold: another operator, or two pipes in a row. */
  predicate RefusedAt(s: string, i: nat)
    requires i < |s|
  {
    TopAt(s, i, true) && (s[i] in ";&\r\n" || (s[i] == '|' && i + 1 < |s| && s[i + 1] == '|'))
  }

  predicate PipeAt(s: string, i: nat)
    requires i < |s|
  {
    TopAt(s, i, true) && s[i] == '|'
  }

  ghost predicate NoneRefused(s: string, from: nat) {
    forall i :: from <= i < |s| ==> !RefusedAt(s, i)
  }

  /** The texts between the pipes from position `i` on, trimmed, the first begun at `start`. */
  function StagesFrom(s: string, start: nat, i: nat): seq<string>
    requires start <= i <= |s|
    decreases |s| - i
  {
    if i == |s| then [Trim(s[start..])]
    else if PipeAt(s, i) then [Trim(s[start..i])] + StagesFrom(s, i + 1, i + 1)
    else StagesFrom(s, start, i + 1)
  }

  ghost function ExpectedStages(s: string, start: nat, i: nat): Option<seq<string>>
    requires start <= i <= |s|
  {
    var stages := StagesFrom(s, start, i);
    if PlaceAt(s, |s|, true) == TOP && NoneRefused(s, i) && "" !in stages then Some(stages) else None
  }

  lemma StagesQuiet(s: string, start: nat, i: nat)
    requires start <= i < |s| && !PipeAt(s, i) && !RefusedAt(s, i)
    ensures ExpectedStages(s, start, i) == ExpectedStages(s, start, i + 1)
  {
  }

  lemma StagesPipe(s: string, start: nat, i: nat)
    requires start <= i < |s| && PipeAt(s, i) && !RefusedAt(s, i)
    ensures ExpectedStages(s, start, i) ==
            match ExpectedStages(s, i + 1, i + 1)
            case None => None
            case Some(rest) => if Trim(s[start..i]) == "" then None else Some([Trim(s[start..i])] + rest)
  {
    var rest := StagesFrom(s, i + 1, i + 1);
    assert "" in [Trim(s[start..i])] + rest <==> Trim(s[start..i]) == "" || "" in rest;
  }

  /** No quoted quote was begun right before `i`. */
  predicate ReadyAt(s: string, i: nat)
    requires i <= |s|
  {
    i < |s| && PlaceAt(s, i, true) == Place(Double, false) && s[i] == '\"' ==> !BehindBackslash(s, i)
  }

  lemma PipeHeadAt(s: string, i: nat, quote: Quote, escaped: bool)
    requires i < |s|
    ensures ClassifyPipe(quote, escaped, s[i..]) == ClassifyPipe(quote, escaped, if i + 1 < |s| then [s[i], s[i + 1]] else [s[i]])
  {
    assert s[i..][0] == s[i] && (i + 1 < |s| ==> s[i..][1] == s[i + 1]);
  }

  lemma InsideOne(s: string, i: nat, quote: Quote, escaped: bool, h: PipeHead)
    requires i < |s| && PlaceAt(s, i, true) == Place(quote, escaped) && ReadyAt(s, i)
    requires h == ClassifyPipe(quote, escaped, s[i..]) && h.Inside? && h.size == 1
    ensures PlaceAt(s, i + 1, true) == Place(h.quote, h.escaped) && !PipeAt(s, i) && !RefusedAt(s, i)
    ensures ReadyAt(s, i + 1)
  {
    PipeHeadAt(s, i, quote, escaped);
  }

  lemma InsideTwo(s: string, i: nat, quote: Quote, escaped: bool, h: PipeHead)
    requires i < |s| && PlaceAt(s, i, true) == Place(quote, escaped)
    requires h == ClassifyPipe(quote, escaped, s[i..]) && h.Inside? && h.size == 2
    ensures i + 2 <= |s| && PlaceAt(s, i + 2, true) == Place(h.quote, h.escaped)
    ensures !PipeAt(s, i) && !RefusedAt(s, i) && !PipeAt(s, i + 1) && !RefusedAt(s, i + 1)
    ensures ReadyAt(s, i + 2)
  {
    PipeHeadAt(s, i, quote, escaped);
    assert PlaceAt(s, i + 1, true) == if quote == Double then Place(Double, false) else TOP;
  }

  /** A character of a stage, or a doubled mark or a quoted quote: no pipe stands there. */
  lemma InsideStands(s: string, start: nat, i: nat, h: PipeHead)
    requires start <= i < |s| && ReadyAt(s, i)
    requires h == ClassifyPipe(PlaceAt(s, i, true).quote, PlaceAt(s, i, true).escaped, s[i..]) && h.Inside?
    ensures i + h.size <= |s| && PlaceAt(s, i + h.size, true) == Place(h.quote, h.escaped) && ReadyAt(s, i + h.size)
    ensures ExpectedStages(s, start, i) == ExpectedStages(s, start, i + h.size)
  {
    var place := PlaceAt(s, i, true);
    if h.size == 1 {
      InsideOne(s, i, place.quote, place.escaped, h);
    } else {
      InsideTwo(s, i, place.quote, place.escaped, h);
      StagesQuiet(s, start, i + 1);
    }
    StagesQuiet(s, start, i);
  }

  lemma PipeStands(s: string, i: nat, quote: Quote, escaped: bool)
    requires i < |s| && PlaceAt(s, i, true) == Place(quote, escaped)
    requires ClassifyPipe(quote, escaped, s[i..]).Pipe?
    ensures PipeAt(s, i) && !RefusedAt(s, i) && PlaceAt(s, i + 1, true) == TOP && ReadyAt(s, i + 1)
  {
    PipeHeadAt(s, i, quote, escaped);
  }

  lemma RefusedStands(s: string, i: nat, quote: Quote, escaped: bool)
    requires i < |s| && PlaceAt(s, i, true) == Place(quote, escaped)
    requires ClassifyPipe(quote, escaped, s[i..]).Refused?
    ensures RefusedAt(s, i)
  {
    PipeHeadAt(s, i, quote, escaped);
  }

  /** The pipe splitter, standing at `i` in the stage that began at `start`, reads what is expected. */
  ghost predicate AgreedStages(s: string, start: nat, i: nat)
    requires start <= i <= |s|
  {
    Stages(s[start..i], PlaceAt(s, i, true).quote, PlaceAt(s, i, true).escaped, s[i..]) == ExpectedStages(s, start, i)
  }

  lemma OnwardInside(s: string, start: nat, i: nat, h: PipeHead)
    requires start <= i < |s| && ReadyAt(s, i)
    requires h == ClassifyPipe(PlaceAt(s, i, true).quote, PlaceAt(s, i, true).escaped, s[i..]) && h.Inside?
    ensures i + h.size <= |s| && ReadyAt(s, i + h.size)
    ensures AgreedStages(s, start, i + h.size) ==> AgreedStages(s, start, i)
  {
    InsideStands(s, start, i, h);
    Advance(s, start, i, h.size);
  }

  lemma OnwardPipe(s: string, start: nat, i: nat)
    requires start <= i < |s| && ReadyAt(s, i)
    requires ClassifyPipe(PlaceAt(s, i, true).quote, PlaceAt(s, i, true).escaped, s[i..]).Pipe?
    ensures ReadyAt(s, i + 1)
    ensures AgreedStages(s, i + 1, i + 1) ==> AgreedStages(s, start, i)
  {
    PipeStands(s, i, PlaceAt(s, i, true).quote, PlaceAt(s, i, true).escaped);
    StagesPipe(s, start, i);
    Advance(s, start, i, 1);
  }

  lemma AgreedStagesEnd(s: string, start: nat)
    requires start <= |s|
    ensures AgreedStages(s, start, |s|)
  {
    assert s[start..|s|] == s[start..];
  }

  lemma {:induction false} StagesAgree(s: string, start: nat, i: nat)
    requires start <= i <= |s| && ReadyAt(s, i)
    ensures AgreedStages(s, start, i)
    decreases |s| - i
  {
    if i == |s| {
      AgreedStagesEnd(s, start);
    } else {
      var place := PlaceAt(s, i, true);
      var h := ClassifyPipe(place.quote, place.escaped, s[i..]);
      if h.Inside? {
        OnwardInside(s, start, i, h);
        StagesAgree(s, start, i + h.size);
      } else if h.Pipe? {
        OnwardPipe(s, start, i);
        StagesAgree(s, i + 1, i + 1);
      } else {
        RefusedStands(s, i, place.quote, place.escaped);
      }
    }
  }

  /** The pipe splitter takes a text exactly when its end stands outside quotes and escapes, no other
      operator and no two pipes in a row stand there, and it has a pipe there and no blank stage; the
      stages are the trimmed texts between the pipes. */
  lemma StagesByPosition(s: string)
    ensures var stages := StagesFrom(s, 0, 0);
            SplitPipeline(s) ==
            if PlaceAt(s, |s|, true) == TOP && NoneRefused(s, 0) && "" !in stages && |stages| > 1 then Some(stages) else None
  {
    assert s[0..] == s && s[0..0] == "";
    StagesAgree(s, 0, 0);
  }
}
