/** The mask that leaves only the code of a PowerShell text: comments, strings, here-strings and
    escaped characters become blanks, line ends stay. */
module CodeMask {
  import opened Basics

  predicate LineEnd(c: char) {
    c == '\r' || c == '\n'
  }

  predicate Mark(c: char) {
    c == '\'' || c == '\"'
  }

  predicate At2(s: string, i: nat, a: char, b: char) {
    i + 1 < |s| && s[i] == a && s[i + 1] == b
  }

  /** Past the first `#>` from `i` on, or the end. */
  function BlockCommentEnd(s: string, i: nat): (end: nat)
    requires i <= |s|
    ensures i <= end <= |s|
    decreases |s| - i
  {
    if i == |s| then i else if At2(s, i, '#', '>') then i + 2 else BlockCommentEnd(s, i + 1)
  }

  /** The first line feed from `i` on, or the end. */
  function LineCommentEnd(s: string, i: nat): (end: nat)
    requires i <= |s|
    ensures i <= end <= |s|
    decreases |s| - i
  {
    if i == |s| || s[i] == '\n' then i else LineCommentEnd(s, i + 1)
  }

  /** Past the first terminator at the start of a line from `i` on, or the end. */
  function HereStringEnd(s: string, i: nat, quote: char): (end: nat)
    requires 0 < i <= |s|
    ensures i <= end <= |s|
    decreases |s| - i
  {
    if i == |s| then i
    else if s[i - 1] == '\n' && At2(s, i, quote, '@') then i + 2
    else HereStringEnd(s, i + 1, quote)
  }

  /** Past the closing quote from `i` on, or the end; an unpaired backtick at the end is stepped over
      as if a character followed it. */
  function StringEnd(s: string, i: nat, quote: char): (end: nat)
    requires i <= |s| + 1
    ensures i <= end <= |s| + 1
    decreases |s| + 1 - i
  {
    if i >= |s| then i
    else if quote == '\'' && At2(s, i, '\'', '\'') then StringEnd(s, i + 2, quote)
    else if quote == '\"' && s[i] == '`' then StringEnd(s, i + 2, quote)
    else if s[i] == quote then i + 1
    else StringEnd(s, i + 1, quote)
  }

  predicate HereStringAt(s: string, i: nat) {
    i + 2 < |s| && s[i] == '@' && Mark(s[i + 1]) && LineEnd(s[i + 2])
  }

  /** What stands at `i` is code, one character of it. */
  predicate CodeAt(s: string, i: nat)
    requires i < |s|
  {
    !At2(s, i, '<', '#') && s[i] != '#' && !HereStringAt(s, i) && !Mark(s[i]) && !(s[i] == '`' && i + 1 < |s|)
  }

  /** Where the unit that begins at `i` ends. */
  function UnitEnd(s: string, i: nat): (end: nat)
    requires i < |s|
    ensures i < end <= |s| + 1
  {
    if At2(s, i, '<', '#') then BlockCommentEnd(s, i + 2)
    else if s[i] == '#' then LineCommentEnd(s, i + 1)
    else if HereStringAt(s, i) then HereStringEnd(s, i + 2, s[i + 1])
    else if Mark(s[i]) then StringEnd(s, i + 1, s[i])
    else if s[i] == '`' && i + 1 < |s| then i + 2
    else i + 1
  }

  function BlankAt(s: string, k: nat): char {
    if k < |s| && LineEnd(s[k]) then s[k] else ' '
  }

  function Blanks(s: string, from: nat, upTo: nat): (r: string)
    requires from <= upTo
    ensures |r| == upTo - from
    ensures forall k :: 0 <= k < |r| ==> r[k] == BlankAt(s, from + k)
    decreases upTo - from
  {
    if from == upTo then "" else [BlankAt(s, from)] + Blanks(s, from + 1, upTo)
  }

  /** The mask of the text from `i` on. */
  function MaskFrom(s: string, i: nat): string
    requires i <= |s| + 1
    decreases |s| + 1 - i
  {
    if i >= |s| then ""
    else if CodeAt(s, i) then [s[i]] + MaskFrom(s, i + 1)
    else Blanks(s, i, UnitEnd(s, i)) + MaskFrom(s, UnitEnd(s, i))
  }

  function Mask(s: string): string {
    MaskFrom(s, 0)
  }

  // ----- the loops -----

  method FindUnitEnd(command: string, index: nat) returns (stop: nat, code: bool)
    requires index < |command|
    ensures stop == UnitEnd(command, index) && code == CodeAt(command, index)
  {
    code := false;
    var c := command[index];
    if At2(command, index, '<', '#') {
      stop := index + 2;
      while stop < |command| && !At2(command, stop, '#', '>')
        invariant index + 2 <= stop <= |command|
        invariant BlockCommentEnd(command, stop) == BlockCommentEnd(command, index + 2)
      {
        stop := stop + 1;
      }
      stop := if stop < |command| then stop + 2 else |command|;
      return;
    }
    if c == '#' {
      stop := index + 1;
      while stop < |command| && command[stop] != '\n'
        invariant index + 1 <= stop <= |command|
        invariant LineCommentEnd(command, stop) == LineCommentEnd(command, index + 1)
      {
        stop := stop + 1;
      }
      return;
    }
    if HereStringAt(command, index) {
      var quote := command[index + 1];
      stop := index + 2;
      while stop < |command|
        invariant index + 2 <= stop <= |command|
        invariant HereStringEnd(command, stop, quote) == HereStringEnd(command, index + 2, quote)
      {
        var lineStart := command[stop - 1] == '\n';
        if lineStart && At2(command, stop, quote, '@') {
          stop := stop + 2;
          return;
        }
        stop := stop + 1;
      }
      return;
    }
    if Mark(c) {
      stop := index + 1;
      while stop < |command|
        invariant index + 1 <= stop <= |command| + 1
        invariant StringEnd(command, stop, c) == StringEnd(command, index + 1, c)
        decreases |command| + 1 - stop
      {
        if c == '\'' && At2(command, stop, '\'', '\'') {
          stop := stop + 2;
          continue;
        }
        if c == '\"' && command[stop] == '`' {
          stop := stop + 2;
          continue;
        }
        if command[stop] == c {
          stop := stop + 1;
          return;
        }
        stop := stop + 1;
      }
      return;
    }
    if c == '`' && index + 1 < |command| {
      stop := index + 2;
      return;
    }
    stop, code := index + 1, true;
  }

  /** Blanks out what lies from `from` to `upTo`, line ends excepted; the text grows if that is past its end. */
  method Blank(text: string, command: string, from: nat, upTo: nat) returns (masked: string)
    requires from <= upTo <= |command| + 1 && from <= |command| == |text| && text[from..] == command[from..]
    ensures masked == text[..from] + Blanks(command, from, upTo) + text[Min(upTo, |text|)..]
  {
    masked := text;
    for index := from to upTo
      invariant |masked| == Max(|text|, index)
      invariant forall k :: 0 <= k < |masked| ==> masked[k] == if from <= k < index then BlankAt(command, k) else text[k]
    {
      if index >= |masked| {
        masked := masked + [' '];
      } else {
        assert text[from..][index - from] == command[from..][index - from];
        if !LineEnd(masked[index]) {
          masked := masked[index := ' '];
        }
      }
    }
  }

  lemma NextUnit(command: string, masked: string, index: nat, unit: string, stop: nat)
    requires index < |command| && index < stop <= |command| + 1 && |unit| == stop - index && |masked| == |command|
    requires masked[index..] == command[index..] && masked[..index] + MaskFrom(command, index) == Mask(command)
    requires MaskFrom(command, index) == unit + MaskFrom(command, stop)
    ensures var after := masked[..index] + unit + masked[Min(stop, |masked|)..];
            && |after| == Max(|command|, stop) && after[stop..] == command[Min(stop, |command|)..]
            && after[..stop] + MaskFrom(command, stop) == Mask(command)
  {
    var after := masked[..index] + unit + masked[Min(stop, |masked|)..];
    assert after[..stop] == masked[..index] + unit;
    Assoc(masked[..index], unit, MaskFrom(command, stop));
    if stop <= |command| {
      assert after[stop..] == masked[stop..] == masked[index..][stop - index..];
      assert command[stop..] == command[index..][stop - index..];
    }
  }

  method PowershellCodeMask(command: string) returns (masked: string)
    ensures masked == Mask(command)
  {
    masked := command;
    var index := 0;
    while index < |command|
      invariant index <= |command| + 1 && |masked| == Max(|command|, index)
      invariant masked[index..] == command[Min(index, |command|)..]
      invariant masked[..index] + MaskFrom(command, index) == Mask(command)
      decreases |command| + 1 - index
    {
      var stop, code := FindUnitEnd(command, index);
      NextUnit(command, masked, index, if code then [command[index]] else Blanks(command, index, stop), stop);
      if code {
        assert masked == masked[..index] + [command[index]] + masked[index + 1..];
      } else {
        masked := Blank(masked, command, index, stop);
      }
      index := stop;
    }
    assert masked[..index] + "" == masked;
  }

  // ----- what a mask is -----

  /** A line end stays; any other character is itself or a blank. */
  predicate Kept(c: char, m: char) {
    if LineEnd(c) then m == c else m == c || m == ' '
  }

  /** `m` masks the text from `i` on: place by place, and at most one blank more. */
  ghost predicate Masks(m: string, s: string, i: nat)
    requires i <= |s| + 1
  {
    && (|m| == |s| - i || (|m| == |s| + 1 - i && (|m| > 0 ==> m[|m| - 1] == ' ')))
    && forall k :: 0 <= k < |m| && k < |s| - i ==> Kept(s[i + k], m[k])
  }

  lemma UnitMasks(s: string, i: nat, unit: string, stop: nat, rest: string)
    requires i < stop <= |s| + 1 && |unit| == stop - i && Masks(rest, s, stop)
    requires forall k :: 0 <= k < |unit| && k < |s| - i ==> Kept(s[i + k], unit[k])
    requires stop == |s| + 1 ==> unit[|unit| - 1] == ' ' && rest == ""
    ensures Masks(unit + rest, s, i)
  {
    var m := unit + rest;
    forall k | 0 <= k < |m| && k < |s| - i ensures Kept(s[i + k], m[k]) {
      if k >= |unit| {
        assert Kept(s[stop + (k - |unit|)], rest[k - |unit|]);
      }
    }
  }

  /** Line ends stay where they are, and any other character is itself or a blank. */
  lemma {:induction false} MaskKeepsPlaces(s: string, i: nat)
    requires i <= |s| + 1
    ensures Masks(MaskFrom(s, i), s, i)
    decreases |s| + 1 - i
  {
    if i >= |s| {
    } else {
      var stop := UnitEnd(s, i);
      var unit := if CodeAt(s, i) then [s[i]] else Blanks(s, i, stop);
      MaskKeepsPlaces(s, stop);
      UnitMasks(s, i, unit, stop, MaskFrom(s, stop));
    }
  }

  /** Nothing that opens a comment, string or escape: quotes and hashes are gone, a backtick is last. */
  ghost predicate Clean(m: string) {
    forall k :: 0 <= k < |m| ==> !Mark(m[k]) && m[k] != '#' && (m[k] == '`' ==> k == |m| - 1)
  }

  lemma {:induction false} MaskIsClean(s: string, i: nat)
    requires i <= |s| + 1
    ensures Clean(MaskFrom(s, i))
    decreases |s| + 1 - i
  {
    if i >= |s| {
    } else {
      var stop := UnitEnd(s, i);
      var unit := if CodeAt(s, i) then [s[i]] else Blanks(s, i, stop);
      MaskIsClean(s, stop);
      UnitThenClean(s, i, unit, MaskFrom(s, stop));
    }
  }

  lemma UnitThenClean(s: string, i: nat, unit: string, rest: string)
    requires i < |s| && unit == (if CodeAt(s, i) then [s[i]] else Blanks(s, i, UnitEnd(s, i)))
    requires Clean(rest) && (i + 1 == |s| && CodeAt(s, i) ==> rest == "")
    ensures Clean(unit + rest)
  {
    var m := unit + rest;
    forall k | 0 <= k < |m| ensures !Mark(m[k]) && m[k] != '#' && (m[k] == '`' ==> k == |m| - 1) {
      if k >= |unit| {
        assert m[k] == rest[k - |unit|];
      }
    }
  }

  /** A clean text is all code. */
  lemma {:induction false} CleanStays(m: string, i: nat)
    requires Clean(m) && i <= |m|
    ensures MaskFrom(m, i) == m[i..]
    decreases |m| - i
  {
    if i >= |m| {
    } else {
      assert CodeAt(m, i);
      CleanStays(m, i + 1);
    }
  }

  /** Masking twice is masking once. */
  lemma MaskIsIdempotent(s: string)
    ensures Mask(Mask(s)) == Mask(s)
  {
    MaskIsClean(s, 0);
    CleanStays(Mask(s), 0);
  }

  // ----- its length -----

  /** A unit of the text begins at `i`, counting from one that begins at `from`. */
  predicate Reaches(s: string, from: nat, i: nat)
    decreases |s| + 1 - from
  {
    from == i || (from < i && from < |s| && Reaches(s, UnitEnd(s, from), i))
  }

  /** Inside a double-quoted string from `i` on, no quote closes it and the last character is a
      backtick that escapes nothing. */
  predicate OpenOnBacktick(s: string, i: nat)
    decreases |s| - i
  {
    i < |s| &&
    if s[i] == '`' then i + 1 == |s| || OpenOnBacktick(s, i + 2) else s[i] != '\"' && OpenOnBacktick(s, i + 1)
  }

  lemma {:induction false} StringOverruns(s: string, i: nat, quote: char)
    requires i <= |s| && Mark(quote)
    ensures StringEnd(s, i, quote) == |s| + 1 <==> quote == '\"' && OpenOnBacktick(s, i)
    decreases |s| - i
  {
    if i >= |s| {
    } else {
      if quote == '\'' && At2(s, i, '\'', '\'') {
        StringOverruns(s, i + 2, quote);
      } else if quote == '\"' && s[i] == '`' {
        if i + 2 <= |s| {
          StringOverruns(s, i + 2, quote);
        }
      } else if s[i] != quote {
        StringOverruns(s, i + 1, quote);
      }
    }
  }

  /** The text ends inside a double-quoted string, right after a backtick that escapes nothing. */
  ghost predicate EndsOnOpenBacktick(s: string, from: nat) {
    exists i :: from <= i < |s| && Reaches(s, from, i) && StringOpensAt(s, i) && OpenOnBacktick(s, i + 1)
  }

  /** A double quote that begins a unit. */
  predicate StringOpensAt(s: string, i: nat)
    requires i < |s|
  {
    s[i] == '\"'
  }

  lemma UnitOverruns(s: string, i: nat)
    requires i < |s|
    ensures UnitEnd(s, i) == |s| + 1 <==> StringOpensAt(s, i) && OpenOnBacktick(s, i + 1)
  {
    StringOverruns(s, i + 1, if Mark(s[i]) then s[i] else '\"');
  }

  /** The mask is exactly as long as the text, but for one blank more when the text ends inside a
      double-quoted string on an unpaired backtick. */
  lemma {:induction false} MaskLength(s: string, i: nat)
    requires i <= |s|
    ensures |MaskFrom(s, i)| == |s| - i + (if EndsOnOpenBacktick(s, i) then 1 else 0)
    decreases |s| - i
  {
    if i >= |s| {
    } else {
      var stop := UnitEnd(s, i);
      UnitOverruns(s, i);
      if stop == |s| + 1 {
        assert Reaches(s, i, i);
      } else {
        MaskLength(s, stop);
        EndsLater(s, i);
      }
    }
  }

  lemma EndsLater(s: string, i: nat)
    requires i < |s| && UnitEnd(s, i) <= |s|
    ensures EndsOnOpenBacktick(s, i) <==> EndsOnOpenBacktick(s, UnitEnd(s, i))
  {
    var stop := UnitEnd(s, i);
    UnitOverruns(s, i);
    if EndsOnOpenBacktick(s, i) {
      var k :| i <= k < |s| && Reaches(s, i, k) && StringOpensAt(s, k) && OpenOnBacktick(s, k + 1);
      assert k != i && Reaches(s, stop, k);
    }
    if EndsOnOpenBacktick(s, stop) {
      var k :| stop <= k < |s| && Reaches(s, stop, k) && StringOpensAt(s, k) && OpenOnBacktick(s, k + 1);
      assert Reaches(s, i, k);
    }
  }
}
