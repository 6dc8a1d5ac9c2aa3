/** Texts put together from code, comments, strings, here-strings and escaped characters, and what
    the mask makes of them: the code as it is, and blanks, line ends kept, for all the rest. */
module CodeParts {
  import opened Basics
  import opened CodeMask
  import CommandWords

  /** As many blanks as the text is long, with its line ends. */
  function Blanked(t: string): (r: string)
    ensures |r| == |t|
  {
    if t == "" then "" else [if t[0] == '\r' || t[0] == '\n' then t[0] else ' '] + Blanked(t[1..])
  }

  // ----- the mask looks ahead only -----

  lemma {:induction false} BlockEndShift(p: string, t: string, i: nat)
    requires i <= |t|
    ensures BlockCommentEnd(p + t, |p| + i) == |p| + BlockCommentEnd(t, i)
    decreases |t| - i
  {
    if i == |t| || At2(t, i, '#', '>') {
    } else {
      BlockEndShift(p, t, i + 1);
    }
  }

  lemma {:induction false} LineEndShift(p: string, t: string, i: nat)
    requires i <= |t|
    ensures LineCommentEnd(p + t, |p| + i) == |p| + LineCommentEnd(t, i)
    decreases |t| - i
  {
    if i == |t| || t[i] == '\n' {
    } else {
      LineEndShift(p, t, i + 1);
    }
  }

  lemma {:induction false} HereEndShift(p: string, t: string, i: nat, quote: char)
    requires 0 < i <= |t|
    ensures HereStringEnd(p + t, |p| + i, quote) == |p| + HereStringEnd(t, i, quote)
    decreases |t| - i
  {
    if i == |t| {
    } else {
      assert (p + t)[|p| + i - 1] == t[i - 1];
      if !(t[i - 1] == '\n' && At2(t, i, quote, '@')) {
        HereEndShift(p, t, i + 1, quote);
      }
    }
  }

  lemma {:induction false} StringEndShift(p: string, t: string, i: nat, quote: char)
    requires i <= |t| + 1
    ensures StringEnd(p + t, |p| + i, quote) == |p| + StringEnd(t, i, quote)
    decreases |t| + 1 - i
  {
    if i >= |t| {
    } else if (quote == '\'' && At2(t, i, '\'', '\'')) || (quote == '\"' && t[i] == '`') {
      StringEndShift(p, t, i + 2, quote);
    } else if t[i] != quote {
      StringEndShift(p, t, i + 1, quote);
    }
  }

  lemma UnitShift(p: string, t: string, i: nat)
    requires i < |t|
    ensures CodeAt(p + t, |p| + i) == CodeAt(t, i) && UnitEnd(p + t, |p| + i) == |p| + UnitEnd(t, i)
  {
    assert (p + t)[|p| + i] == t[i];
    assert forall k :: i <= k < |t| ==> (p + t)[|p| + k] == t[k];
    if At2(t, i, '<', '#') {
      BlockEndShift(p, t, i + 2);
    } else if t[i] == '#' {
      LineEndShift(p, t, i + 1);
    } else if HereStringAt(t, i) {
      HereEndShift(p, t, i + 2, t[i + 1]);
    } else if Mark(t[i]) {
      StringEndShift(p, t, i + 1, t[i]);
    }
  }

  lemma BlanksShift(p: string, t: string, from: nat, upTo: nat)
    requires from <= upTo
    ensures Blanks(p + t, |p| + from, |p| + upTo) == Blanks(t, from, upTo)
  {
    var a, b := Blanks(p + t, |p| + from, |p| + upTo), Blanks(t, from, upTo);
    forall k | 0 <= k < |a| ensures a[k] == b[k] {
      assert a[k] == BlankAt(p + t, |p| + from + k);
      assert from + k < |t| ==> (p + t)[|p| + (from + k)] == t[from + k];
    }
  }

  lemma MaskUnfolds(s: string, i: nat)
    requires i < |s|
    ensures MaskFrom(s, i) == (if CodeAt(s, i) then [s[i]] else Blanks(s, i, UnitEnd(s, i))) + MaskFrom(s, UnitEnd(s, i))
  {
  }

  lemma {:induction false} MaskShift(p: string, t: string, i: nat)
    requires i <= |t| + 1
    ensures MaskFrom(p + t, |p| + i) == MaskFrom(t, i)
    decreases |t| + 1 - i
  {
    if i >= |t| {
    } else {
      var s, stop := p + t, UnitEnd(t, i);
      UnitShift(p, t, i);
      BlanksShift(p, t, i, stop);
      MaskShift(p, t, stop);
      MaskUnfolds(t, i);
      MaskUnfolds(s, |p| + i);
      assert s[|p| + i] == t[i];
    }
  }

  lemma {:induction false} BlanksAreBlanked(t: string, rest: string)
    ensures Blanks(t + rest, 0, |t|) == Blanked(t)
  {
    if t == "" {
    } else {
      var tail := t[1..];
      assert t + rest == [t[0]] + (tail + rest);
      BlanksAreBlanked(tail, rest);
      BlanksShift([t[0]], tail + rest, 0, |tail|);
    }
  }

  /** A unit at the beginning becomes blanks, and the rest is masked as if it stood alone. */
  lemma UnitMasked(unit: string, rest: string)
    requires unit != "" && !CodeAt(unit + rest, 0) && UnitEnd(unit + rest, 0) == |unit|
    ensures Mask(unit + rest) == Blanked(unit) + Mask(rest)
  {
    var s, n := unit + rest, |unit|;
    MaskUnfolds(s, 0);
    assert Blanks(s, 0, n) == Blanked(unit) by {
      BlanksAreBlanked(unit, rest);
    }
    assert MaskFrom(s, n) == Mask(rest) by {
      MaskShift(unit, rest, 0);
    }
  }

  // ----- where units end -----

  lemma {:induction false} BlockEndsAt(s: string, i: nat, end: nat)
    requires i <= end && At2(s, end, '#', '>') && forall k :: i <= k < end ==> !At2(s, k, '#', '>')
    ensures BlockCommentEnd(s, i) == end + 2
    decreases end - i
  {
    if i == end {
    } else {
      BlockEndsAt(s, i + 1, end);
    }
  }

  lemma {:induction false} LineEndsAt(s: string, i: nat, end: nat)
    requires i <= end <= |s| && (end < |s| ==> s[end] == '\n') && forall k :: i <= k < end ==> s[k] != '\n'
    ensures LineCommentEnd(s, i) == end
    decreases end - i
  {
    if i == end {
    } else {
      LineEndsAt(s, i + 1, end);
    }
  }

  /** The terminator of a here-string begins the line at `k`. */
  predicate TerminatorAt(s: string, k: nat, quote: char) {
    0 < k <= |s| && s[k - 1] == '\n' && At2(s, k, quote, '@')
  }

  lemma {:induction false} HereEndsAt(s: string, i: nat, end: nat, quote: char)
    requires 0 < i <= end && TerminatorAt(s, end, quote) && forall k :: i <= k < end ==> !TerminatorAt(s, k, quote)
    ensures HereStringEnd(s, i, quote) == end + 2
    decreases end - i
  {
    if i == end {
    } else {
      assert !TerminatorAt(s, i, quote);
      HereEndsAt(s, i + 1, end, quote);
    }
  }

  lemma {:induction false} SingleEndsAt(p: string, body: string, rest: string)
    requires rest == "" || rest[0] != '\''
    ensures StringEnd(p + (CommandWords.Doubled(body) + "'" + rest), |p|, '\'') == |p| + |CommandWords.Doubled(body)| + 1
    decreases |body|
  {
    var text := CommandWords.Doubled(body) + "'" + rest;
    var s := p + text;
    if body == "" {
      assert text == "'" + rest && s[|p|] == '\'';
      assert rest != "" ==> s[|p| + 1] == rest[0];
    } else {
      var unit := if body[0] == '\'' then "''" else [body[0]];
      var tail := CommandWords.Doubled(body[1..]) + "'" + rest;
      assert text == unit + tail;
      assert s == (p + unit) + tail;
      SingleEndsAt(p + unit, body[1..], rest);
      assert s[|p|] == unit[0];
      if body[0] == '\'' {
        assert s[|p| + 1] == '\'';
      }
    }
  }

  /** A character of a double-quoted string: one that is neither a mark nor a backtick, or any one
      behind a backtick. */
  datatype Item = Plain(c: char) | Escape(c: char)

  function Spelled(items: seq<Item>): string {
    if items == [] then "" else (if items[0].Plain? then [items[0].c] else ['`', items[0].c]) + Spelled(items[1..])
  }

  predicate ItemsOk(items: seq<Item>) {
    forall i :: 0 <= i < |items| ==> items[i].Plain? ==> items[i].c != '\"' && items[i].c != '`'
  }

  lemma {:induction false} DoubleEndsAt(p: string, items: seq<Item>, rest: string)
    requires ItemsOk(items)
    ensures StringEnd(p + (Spelled(items) + "\"" + rest), |p|, '\"') == |p| + |Spelled(items)| + 1
    decreases |items|
  {
    var text := Spelled(items) + "\"" + rest;
    var s := p + text;
    if items == [] {
      assert text == "\"" + rest && s[|p|] == '\"';
    } else {
      var unit := if items[0].Plain? then [items[0].c] else ['`', items[0].c];
      var tail := Spelled(items[1..]) + "\"" + rest;
      assert text == unit + tail;
      assert s == (p + unit) + tail;
      DoubleEndsAt(p + unit, items[1..], rest);
      assert s[|p|] == unit[0];
    }
  }

  // ----- the parts of a text -----

  datatype Part =
    | Code(text: string)
    | BlockComment(body: string)
    | LineComment(body: string)
    | SingleQuoted(body: string)
    | DoubleQuoted(items: seq<Item>)
    | HereString(quote: char, body: string)
    | Escaped(c: char)

  function SpelledPart(part: Part): string {
    match part
    case Code(text) => text
    case BlockComment(body) => "<#" + body + "#>"
    case LineComment(body) => "#" + body
    case SingleQuoted(body) => "'" + CommandWords.Doubled(body) + "'"
    case DoubleQuoted(items) => "\"" + Spelled(items) + "\""
    case HereString(quote, body) => ['@', quote] + body + [quote, '@']
    case Escaped(c) => ['`', c]
  }

  /** The part is one where it stands, before `rest`: nothing inside ends it early, and it does not
      join with what follows to be something else. */
  ghost predicate Stands(part: Part, rest: string) {
    match part
    case Code(text) =>
      && (forall i :: 0 <= i < |text| ==> text[i] != '#' && text[i] != '`' && text[i] != '\'' && text[i] != '\"')
      && !(text != "" && text[|text| - 1] == '<' && rest != "" && rest[0] == '#')
      && !(text != "" && text[|text| - 1] == '@' && |rest| > 1 && Mark(rest[0]) && LineEnd(rest[1]))
    case BlockComment(body) => forall k :: 0 <= k < |body| ==> !At2(body + "#>", k, '#', '>')
    case LineComment(body) => '\n' !in body && (rest == "" || rest[0] == '\n')
    case SingleQuoted(body) => rest == "" || rest[0] != '\''
    case DoubleQuoted(items) => ItemsOk(items)
    case HereString(quote, body) =>
      && Mark(quote) && body != "" && LineEnd(body[0]) && body[|body| - 1] == '\n'
      && forall k :: 0 < k < |body| ==> !TerminatorAt(body + [quote, '@'], k, quote)
    case Escaped(_) => true
  }

  lemma BlockMasked(body: string, rest: string)
    requires Stands(BlockComment(body), rest)
    ensures Mask("<#" + body + "#>" + rest) == Blanked("<#" + body + "#>") + Mask(rest)
  {
    var unit := "<#" + body + "#>";
    var s := unit + rest;
    var end := 2 + |body|;
    assert At2(s, 0, '<', '#') && At2(s, end, '#', '>');
    forall k | 2 <= k < end ensures !At2(s, k, '#', '>') {
      assert s[k] == (body + "#>")[k - 2] && s[k + 1] == (body + "#>")[k - 1];
      assert !At2(body + "#>", k - 2, '#', '>');
    }
    BlockEndsAt(s, 2, end);
    UnitMasked(unit, rest);
  }

  lemma LineMasked(body: string, rest: string)
    requires Stands(LineComment(body), rest)
    ensures Mask("#" + body + rest) == Blanked("#" + body) + Mask(rest)
  {
    var unit := "#" + body;
    var s := unit + rest;
    assert s[0] == '#' && forall k :: 1 <= k < |unit| ==> s[k] == body[k - 1];
    assert rest != "" ==> s[|unit|] == rest[0];
    LineEndsAt(s, 1, |unit|);
    UnitMasked(unit, rest);
  }

  lemma SingleMasked(body: string, rest: string)
    requires Stands(SingleQuoted(body), rest)
    ensures Mask("'" + CommandWords.Doubled(body) + "'" + rest) == Blanked("'" + CommandWords.Doubled(body) + "'") + Mask(rest)
  {
    var unit := "'" + CommandWords.Doubled(body) + "'";
    assert unit + rest == "'" + (CommandWords.Doubled(body) + "'" + rest);
    SingleEndsAt("'", body, rest);
    UnitMasked(unit, rest);
  }

  lemma DoubleMasked(items: seq<Item>, rest: string)
    requires Stands(DoubleQuoted(items), rest)
    ensures Mask("\"" + Spelled(items) + "\"" + rest) == Blanked("\"" + Spelled(items) + "\"") + Mask(rest)
  {
    var unit := "\"" + Spelled(items) + "\"";
    assert unit + rest == "\"" + (Spelled(items) + "\"" + rest);
    DoubleEndsAt("\"", items, rest);
    UnitMasked(unit, rest);
  }

  lemma HereMasked(quote: char, body: string, rest: string)
    requires Stands(HereString(quote, body), rest)
    ensures Mask(['@', quote] + body + [quote, '@'] + rest) == Blanked(['@', quote] + body + [quote, '@']) + Mask(rest)
  {
    var inner := body + [quote, '@'];
    var unit := ['@', quote] + body + [quote, '@'];
    var s := unit + rest;
    var end := 2 + |body|;
    assert forall k :: 2 <= k < |unit| ==> s[k] == inner[k - 2];
    assert s[0] == '@' && s[1] == quote && s[2] == body[0] && HereStringAt(s, 0);
    assert TerminatorAt(s, end, quote);
    forall k | 2 <= k < end ensures !TerminatorAt(s, k, quote) {
      if k > 2 {
        assert !TerminatorAt(inner, k - 2, quote);
      }
    }
    HereEndsAt(s, 2, end, quote);
    UnitMasked(unit, rest);
  }

  lemma CodeHeadKept(c: char, t: string)
    requires CodeAt([c] + t, 0)
    ensures Mask([c] + t) == [c] + Mask(t)
  {
    MaskUnfolds([c] + t, 0);
    MaskShift([c], t, 0);
  }

  lemma {:induction false} CodeKept(text: string, rest: string)
    requires Stands(Code(text), rest)
    ensures Mask(text + rest) == text + Mask(rest)
  {
    if text == "" {
      assert text + rest == rest;
    } else {
      var tail := text[1..];
      CodeAtHead(text, rest);
      CodeKept(tail, rest);
      assert text + rest == [text[0]] + (tail + rest);
      CodeHeadKept(text[0], tail + rest);
    }
  }

  lemma CodeAtHead(text: string, rest: string)
    requires text != "" && Stands(Code(text), rest)
    ensures CodeAt(text + rest, 0)
  {
    var s := text + rest;
    assert |text| > 1 ==> s[1] == text[1];
    assert |text| == 1 ==> (rest != "" ==> s[1] == rest[0]) && (|rest| > 1 ==> s[2] == rest[1]);
  }

  /** What a part becomes. */
  function Shown(part: Part): string {
    if part.Code? then part.text else Blanked(SpelledPart(part))
  }

  /** A part before any rest is masked on its own: code stays, everything else becomes blanks and
      line ends, and the rest is masked as if it stood alone. */
  lemma PartMasked(part: Part, rest: string)
    requires Stands(part, rest)
    ensures Mask(SpelledPart(part) + rest) == Shown(part) + Mask(rest)
  {
    match part
    case Code(text) => CodeKept(text, rest);
    case BlockComment(body) => BlockMasked(body, rest);
    case LineComment(body) => LineMasked(body, rest);
    case SingleQuoted(body) => SingleMasked(body, rest);
    case DoubleQuoted(items) => DoubleMasked(items, rest);
    case HereString(quote, body) => HereMasked(quote, body, rest);
    case Escaped(c) => UnitMasked(['`', c], rest);
  }

  function Text(parts: seq<Part>): string {
    if parts == [] then "" else SpelledPart(parts[0]) + Text(parts[1..])
  }

  ghost predicate AllStand(parts: seq<Part>) {
    parts == [] || (Stands(parts[0], Text(parts[1..])) && AllStand(parts[1..]))
  }

  function ShownAll(parts: seq<Part>): string {
    if parts == [] then "" else Shown(parts[0]) + ShownAll(parts[1..])
  }

  /** So any text put together from parts is masked part by part. */
  lemma {:induction false} PartsAreMasked(parts: seq<Part>)
    requires AllStand(parts)
    ensures Mask(Text(parts)) == ShownAll(parts)
  {
    if parts == [] {
    } else {
      PartMasked(parts[0], Text(parts[1..]));
      PartsAreMasked(parts[1..]);
    }
  }

  // ----- what is left open at the end -----

  /** A comment, here-string or string that the text does not close. */
  datatype Open = OpenComment(body: string) | OpenHereString(quote: char, body: string)
                | OpenSingle(body: string) | OpenDouble(items: seq<Item>, backtick: bool)

  function SpelledOpen(o: Open): string {
    match o
    case OpenComment(body) => "<#" + body
    case OpenHereString(quote, body) => ['@', quote] + body
    case OpenSingle(body) => "'" + CommandWords.Doubled(body)
    case OpenDouble(items, backtick) => "\"" + Spelled(items) + (if backtick then "`" else "")
  }

  ghost predicate StaysOpen(o: Open) {
    match o
    case OpenComment(body) => forall k :: 0 <= k < |body| ==> !At2(body, k, '#', '>')
    case OpenHereString(quote, body) =>
      Mark(quote) && body != "" && LineEnd(body[0]) && forall k :: 0 < k <= |body| ==> !TerminatorAt(body, k, quote)
    case OpenSingle(_) => true
    case OpenDouble(items, _) => ItemsOk(items)
  }

  lemma {:induction false} BlockStaysOpen(s: string, i: nat)
    requires i <= |s| && forall k :: i <= k < |s| ==> !At2(s, k, '#', '>')
    ensures BlockCommentEnd(s, i) == |s|
    decreases |s| - i
  {
    if i == |s| {
    } else {
      BlockStaysOpen(s, i + 1);
    }
  }

  lemma {:induction false} HereStaysOpen(s: string, i: nat, quote: char)
    requires 0 < i <= |s| && forall k :: i <= k < |s| ==> !TerminatorAt(s, k, quote)
    ensures HereStringEnd(s, i, quote) == |s|
    decreases |s| - i
  {
    if i == |s| {
    } else {
      assert !TerminatorAt(s, i, quote);
      HereStaysOpen(s, i + 1, quote);
    }
  }

  lemma {:induction false} SingleStaysOpen(p: string, body: string)
    ensures StringEnd(p + CommandWords.Doubled(body), |p|, '\'') == |p| + |CommandWords.Doubled(body)|
    decreases |body|
  {
    var s := p + CommandWords.Doubled(body);
    if body == "" {
    } else {
      var unit := if body[0] == '\'' then "''" else [body[0]];
      assert CommandWords.Doubled(body) == unit + CommandWords.Doubled(body[1..]);
      assert s == (p + unit) + CommandWords.Doubled(body[1..]);
      SingleStaysOpen(p + unit, body[1..]);
      assert s[|p|] == unit[0];
      if body[0] == '\'' {
        assert s[|p| + 1] == '\'';
      }
    }
  }

  lemma {:induction false} DoubleStaysOpen(p: string, items: seq<Item>, backtick: bool)
    requires ItemsOk(items)
    ensures var end := if backtick then "`" else "";
            StringEnd(p + (Spelled(items) + end), |p|, '\"') == |p| + |Spelled(items)| + (if backtick then 2 else 0)
    decreases |items|
  {
    var end := if backtick then "`" else "";
    var s := p + (Spelled(items) + end);
    if items == [] {
      assert Spelled(items) + end == end;
    } else {
      var unit := if items[0].Plain? then [items[0].c] else ['`', items[0].c];
      assert Spelled(items) + end == unit + (Spelled(items[1..]) + end);
      assert s == (p + unit) + (Spelled(items[1..]) + end);
      DoubleStaysOpen(p + unit, items[1..], backtick);
      assert s[|p|] == unit[0];
    }
  }

  lemma OpenEnds(o: Open)
    requires StaysOpen(o)
    ensures var s := SpelledOpen(o);
            s != "" && !CodeAt(s, 0) && UnitEnd(s, 0) == |s| + (if o.OpenDouble? && o.backtick then 1 else 0)
  {
    var s := SpelledOpen(o);
    match o
    case OpenComment(body) =>
      forall k | 2 <= k < |s| ensures !At2(s, k, '#', '>') {
        assert !At2(body, k - 2, '#', '>');
      }
      BlockStaysOpen(s, 2);
    case OpenHereString(quote, body) =>
      assert forall k :: 2 <= k < |s| ==> s[k] == body[k - 2];
      forall k | 2 <= k < |s| ensures !TerminatorAt(s, k, quote) {
        if k > 2 {
          assert !TerminatorAt(body, k - 2, quote);
        }
      }
      HereStaysOpen(s, 2, quote);
    case OpenSingle(body) => SingleStaysOpen("'", body);
    case OpenDouble(items, backtick) =>
      assert s == "\"" + (Spelled(items) + (if backtick then "`" else ""));
      DoubleStaysOpen("\"", items, backtick);
  }

  /** It becomes blanks and line ends to the end of the text, and one blank more behind a backtick
      that escapes nothing. */
  lemma OpenIsMasked(o: Open)
    requires StaysOpen(o)
    ensures Mask(SpelledOpen(o)) == Blanked(SpelledOpen(o)) + (if o.OpenDouble? && o.backtick then " " else "")
  {
    var s := SpelledOpen(o);
    OpenEnds(o);
    MaskUnfolds(s, 0);
    BlanksAreBlanked(s, "");
    assert s + "" == s;
    if o.OpenDouble? && o.backtick {
      var a, b := Blanks(s, 0, |s| + 1), Blanks(s, 0, |s|);
      assert a == b + " " by {
        assert forall k :: 0 <= k < |s| ==> a[k] == BlankAt(s, 0 + k) && b[k] == BlankAt(s, 0 + k);
        assert a[|s|] == BlankAt(s, 0 + |s|);
      }
    }
  }
}
