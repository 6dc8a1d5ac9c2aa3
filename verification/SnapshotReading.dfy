/** Reading JSON text, after sections 2 to 7 of RFC 8259, and the law that what JSON.stringify prints
    is read back as the value that was printed. */
module SnapshotReading {
  import opened Basics
  import opened SnapshotJson

  // ----- a reader -----

  predicate White(c: char) {
    c == ' ' || c == '\t' || c == '\n' || c == '\r'
  }

  function SkipWhite(s: string): (r: string)
    ensures |r| <= |s|
  {
    if s != "" && White(s[0]) then SkipWhite(s[1..]) else s
  }

  function HexValue(c: char): (r: Option<int>)
    ensures r.Some? ==> 0 <= r.value < 16
  {
    if '0' <= c <= '9' then Some(c as int - '0' as int)
    else if 'a' <= c <= 'f' then Some(c as int - 'a' as int + 10)
    else if 'A' <= c <= 'F' then Some(c as int - 'A' as int + 10)
    else None
  }

  /** The character behind a backslash other than `u`. */
  function ShortEscape(c: char): Option<char> {
    if c == 'b' then Some('\U{8}') else if c == 't' then Some('\t') else if c == 'n' then Some('\n')
    else if c == 'f' then Some('\U{C}') else if c == 'r' then Some('\r')
    else if c == '\"' || c == '\\' || c == '/' then Some(c) else None
  }

  /** The number that four hexadecimal digits write. */
  function HexNumber(s: string): Option<int>
    requires |s| == 4
  {
    if forall i :: 0 <= i < 4 ==> HexValue(s[i]).Some? then
      Some(((HexValue(s[0]).value * 16 + HexValue(s[1]).value) * 16 + HexValue(s[2]).value) * 16 + HexValue(s[3]).value)
    else None
  }

  /** One character of a string, and how much text it takes. */
  function ReadChar(s: string): Option<(char, nat)> {
    if s == "" || s[0] == '\"' || s[0] < ' ' then None
    else if s[0] != '\\' then Some((s[0], 1))
    else if |s| >= 2 && ShortEscape(s[1]).Some? then Some((ShortEscape(s[1]).value, 2))
    else if |s| >= 6 && s[1] == 'u' && HexNumber(s[2..6]).Some? then
      var code := HexNumber(s[2..6]).value;
      if 0xD800 <= code < 0xE000 then None else Some((code as char, 6))
    else None
  }

  /** The rest of a string behind its opening quote, and what follows it. */
  function ReadString(s: string): (r: Option<(string, string)>)
    ensures r.Some? ==> |r.value.1| < |s|
  {
    if s == "" then None
    else if s[0] == '\"' then Some(("", s[1..]))
    else
      match ReadChar(s)
      case None => None
      case Some((c, n)) =>
        if n > |s| then None
        else
          match ReadString(s[n..])
          case None => None
          case Some((tail, rest)) => Some(([c] + tail, rest))
  }

  predicate NumberChar(c: char) {
    '0' <= c <= '9' || c == '-' || c == '+' || c == '.' || c == 'e' || c == 'E'
  }

  function NumberLength(s: string): (n: nat)
    ensures n <= |s|
  {
    if s != "" && NumberChar(s[0]) then 1 + NumberLength(s[1..]) else 0
  }

  function ReadValue(text: string): (r: Option<(Json, string)>)
    ensures r.Some? ==> |r.value.1| < |text|
    decreases |text|, 2
  {
    var s := SkipWhite(text);
    if s == "" then None
    else if s[0] == '\"' then
      match ReadString(s[1..])
      case None => None
      case Some((value, rest)) => Some((Str(value), rest))
    else if s[0] == '[' then ReadArray(s[1..])
    else if s[0] == '{' then ReadObject(s[1..])
    else if "null" <= s then Some((Null, s[4..]))
    else if "true" <= s then Some((Bool(true), s[4..]))
    else if "false" <= s then Some((Bool(false), s[5..]))
    else
      var n := NumberLength(s);
      if n == 0 then None else Some((Number(s[..n]), s[n..]))
  }

  function ReadArray(text: string): (r: Option<(Json, string)>)
    ensures r.Some? ==> |r.value.1| < |text|
    decreases |text|, 4
  {
    var s := SkipWhite(text);
    if s != "" && s[0] == ']' then Some((Arr([]), s[1..]))
    else
      match ReadItems(text)
      case None => None
      case Some((items, rest)) => Some((Arr(items), rest))
  }

  /** One element or more, up to the closing bracket. */
  function ReadItems(text: string): (r: Option<(seq<Json>, string)>)
    ensures r.Some? ==> |r.value.1| < |text|
    decreases |text|, 3
  {
    match ReadValue(text)
    case None => None
    case Some((item, rest)) =>
      var s := SkipWhite(rest);
      if s != "" && s[0] == ']' then Some(([item], s[1..]))
      else if s == "" || s[0] != ',' then None
      else
        match ReadItems(s[1..])
        case None => None
        case Some((items, end)) => Some(([item] + items, end))
  }

  function ReadObject(text: string): (r: Option<(Json, string)>)
    ensures r.Some? ==> |r.value.1| < |text|
    decreases |text|, 4
  {
    var s := SkipWhite(text);
    if s != "" && s[0] == '}' then Some((Obj([]), s[1..]))
    else
      match ReadMembers(text)
      case None => None
      case Some((members, rest)) => Some((Obj(members), rest))
  }

  function ReadMember(text: string): (r: Option<(Member, string)>)
    ensures r.Some? ==> |r.value.1| < |text|
    decreases |text|, 1
  {
    var s := SkipWhite(text);
    if s == "" || s[0] != '\"' then None
    else
      match ReadString(s[1..])
      case None => None
      case Some((key, rest)) =>
        var colon := SkipWhite(rest);
        if colon == "" || colon[0] != ':' then None
        else
          match ReadValue(colon[1..])
          case None => None
          case Some((value, end)) => Some((Member(key, value), end))
  }

  function ReadMembers(text: string): (r: Option<(seq<Member>, string)>)
    ensures r.Some? ==> |r.value.1| < |text|
    decreases |text|, 3
  {
    match ReadMember(text)
    case None => None
    case Some((member, rest)) =>
      var s := SkipWhite(rest);
      if s != "" && s[0] == '}' then Some(([member], s[1..]))
      else if s == "" || s[0] != ',' then None
      else
        match ReadMembers(s[1..])
        case None => None
        case Some((members, end)) => Some(([member] + members, end))
  }

  // ----- what is printed is read back -----

  ghost predicate AllWhite(s: string) {
    forall i :: 0 <= i < |s| ==> White(s[i])
  }

  lemma {:induction false} SkipsWhite(pad: string, s: string)
    requires AllWhite(pad)
    ensures SkipWhite(pad + s) == SkipWhite(s)
  {
    if pad == "" {
      assert pad + s == s;
    } else {
      assert (pad + s)[1..] == pad[1..] + s;
      SkipsWhite(pad[1..], s);
    }
  }

  lemma CharReadsBack(c: char, rest: string)
    ensures ReadChar(EscapeChar(c) + rest) == Some((c, |EscapeChar(c)|)) && EscapeChar(c) != "" && EscapeChar(c)[0] != '\"'
  {
    var s := EscapeChar(c) + rest;
    if c < ' ' && c != '\U{8}' && c != '\t' && c != '\n' && c != '\U{C}' && c != '\r' {
      HexReadsBack(c as int / 16);
      HexReadsBack(c as int % 16);
      assert s[2..6] == ['0', '0', HexDigit(c as int / 16), HexDigit(c as int % 16)];
    }
  }

  lemma HexReadsBack(n: int)
    requires 0 <= n < 16
    ensures HexValue(HexDigit(n)) == Some(n)
  {
    var digits := "0123456789abcdef";
    assert digits[n] == HexDigit(n);
    assert n < 10 ==> digits[n] as int == '0' as int + n;
    assert n >= 10 ==> digits[n] as int == 'a' as int + (n - 10);
  }

  lemma {:induction false} StringReadsBack(s: string, rest: string)
    ensures ReadString(Escape(s) + "\"" + rest) == Some((s, rest))
  {
    var text := Escape(s) + "\"" + rest;
    if s == "" {
      assert text == "\"" + rest && text[1..] == rest;
    } else {
      var first, tail := EscapeChar(s[0]), Escape(s[1..]) + "\"" + rest;
      assert text == first + tail && text[|first|..] == tail && text[0] == first[0];
      CharReadsBack(s[0], tail);
      StringReadsBack(s[1..], rest);
      assert [s[0]] + s[1..] == s;
    }
  }

  /** Number texts are made of the characters of numbers. */
  ghost predicate Legal(v: Json)
    decreases v
  {
    match v
    case Number(text) => text != "" && forall i :: 0 <= i < |text| ==> NumberChar(text[i])
    case Arr(items) => forall i :: 0 <= i < |items| ==> Legal(items[i])
    case Obj(members) => forall i :: 0 <= i < |members| ==> Legal(members[i].value)
    case _ => true
  }

  predicate EndsValue(rest: string) {
    rest == "" || !NumberChar(rest[0])
  }

  lemma {:induction false} NumberReadsBack(text: string, rest: string)
    requires EndsValue(rest) && forall i :: 0 <= i < |text| ==> NumberChar(text[i])
    ensures NumberLength(text + rest) == |text|
  {
    if text == "" {
      assert text + rest == rest;
    } else {
      assert (text + rest)[1..] == text[1..] + rest;
      NumberReadsBack(text[1..], rest);
    }
  }

  /** The first character of a printed value says what it is. */
  lemma ValueBegins(v: Json, indent: string)
    requires Legal(v)
    ensures Print(v, indent) != "" && !White(Print(v, indent)[0])
    ensures Print(v, indent)[0] != ']' && Print(v, indent)[0] != '}'
  {
    if v.Number? {
      assert NumberChar(v.text[0]);
    }
  }

  /** Printed values are read back, whatever follows them. */
  lemma {:induction false} ValueReadsBack(v: Json, indent: string, rest: string)
    requires Legal(v) && AllWhite(indent) && (v.Number? ==> EndsValue(rest))
    ensures ReadValue(Print(v, indent) + rest) == Some((v, rest))
    decreases v
  {
    var text := Print(v, indent) + rest;
    ValueBegins(v, indent);
    match v
    case Null => assert text[4..] == rest;
    case Bool(b) => assert b ==> text[4..] == rest; assert !b ==> text[5..] == rest;
    case Number(digits) =>
      NumberReadsBack(digits, rest);
      NumberIsRead(digits, rest);
    case Str(s) =>
      assert text == "\"" + (Escape(s) + "\"" + rest) && text[1..] == Escape(s) + "\"" + rest;
      StringReadsBack(s, rest);
    case Arr(items) =>
      if items == [] {
        assert text == "[]" + rest && text[1..] == "]" + rest && text[1..][1..] == rest;
      } else {
        ArrayReadsBack(items, indent, rest);
      }
    case Obj(members) =>
      if members == [] {
        assert text == "{}" + rest && text[1..] == "}" + rest && text[1..][1..] == rest;
      } else {
        ObjectReadsBack(members, indent, rest);
      }
  }

  lemma NumberIsRead(digits: string, rest: string)
    requires digits != "" && (forall i :: 0 <= i < |digits| ==> NumberChar(digits[i])) && NumberLength(digits + rest) == |digits|
    ensures ReadValue(digits + rest) == Some((Number(digits), rest))
  {
    var s := digits + rest;
    assert s[0] == digits[0] && NumberChar(s[0]);
    assert s[..|digits|] == digits && s[|digits|..] == rest;
    assert !("null" <= s) && !("true" <= s) && !("false" <= s);
  }

  /** An opening line, an indented body that reads back with its closing line. */
  lemma OpenedBody(open: char, pad: string, body: string, tail: string, indent: string, close: char, rest: string)
    requires AllWhite(pad) && AllWhite(indent) && body != "" && !White(body[0])
    ensures var text := [open, '\n'] + pad + body + "\n" + indent + [close] + rest;
            text[0] == open && SkipWhite(text[1..]) == body + ("\n" + indent + [close] + rest)
  {
    var after := body + ("\n" + indent + [close] + rest);
    var text := [open, '\n'] + pad + body + "\n" + indent + [close] + rest;
    assert text[1..] == (['\n'] + pad) + after;
    SkipsWhite(['\n'] + pad, after);
  }

  lemma {:induction false} ArrayReadsBack(items: seq<Json>, indent: string, rest: string)
    requires items != [] && AllWhite(indent) && forall i :: 0 <= i < |items| ==> Legal(items[i])
    ensures ReadValue(Print(Arr(items), indent) + rest) == Some((Arr(items), rest))
    decreases items, 1
  {
    var body := PrintItems(items, indent + GAP);
    var end := "\n" + indent + "]" + rest;
    var text := Print(Arr(items), indent) + rest;
    ItemsBegin(items, indent + GAP);
    assert text == ['[', '\n'] + (indent + GAP) + body + "\n" + indent + [']'] + rest;
    OpenedBody('[', indent + GAP, body, end, indent, ']', rest);
    ItemsReadBack(items, indent + GAP, "\n" + indent, rest);
    assert "\n" + indent + "]" + rest == "\n" + indent + [']'] + rest;
    ItemsSkipWhite(text[1..], body + end);
  }

  lemma ItemsSkipWhite(text: string, s: string)
    requires SkipWhite(text) == s && s != "" && !White(s[0])
    ensures ReadItems(text) == ReadItems(s)
  {
    ValueSkipsWhite(text, s);
  }

  lemma MembersSkipWhite(text: string, s: string)
    requires SkipWhite(text) == s && s != "" && !White(s[0])
    ensures ReadMembers(text) == ReadMembers(s)
  {
    assert ReadMember(text) == ReadMember(s);
  }

  lemma LastItem(text: string, item: Json, tail: string, rest: string)
    requires ReadValue(text) == Some((item, tail)) && SkipWhite(tail) == "]" + rest
    ensures ReadItems(text) == Some(([item], rest))
  {
    assert ("]" + rest)[1..] == rest;
  }

  lemma OneMoreItem(text: string, item: Json, more: string, items: seq<Json>, rest: string)
    requires ReadValue(text) == Some((item, "," + more)) && ReadItems(more) == Some((items, rest))
    ensures ReadItems(text) == Some(([item] + items, rest))
  {
    assert ("," + more)[1..] == more && SkipWhite("," + more) == "," + more;
  }

  lemma LastMember(text: string, member: Member, tail: string, rest: string)
    requires ReadMember(text) == Some((member, tail)) && SkipWhite(tail) == "}" + rest
    ensures ReadMembers(text) == Some(([member], rest))
  {
    assert ("}" + rest)[1..] == rest;
  }

  lemma OneMoreMember(text: string, member: Member, more: string, members: seq<Member>, rest: string)
    requires ReadMember(text) == Some((member, "," + more)) && ReadMembers(more) == Some((members, rest))
    ensures ReadMembers(text) == Some(([member] + members, rest))
  {
    assert ("," + more)[1..] == more && SkipWhite("," + more) == "," + more;
  }

  lemma ItemsBegin(items: seq<Json>, indent: string)
    requires items != [] && forall i :: 0 <= i < |items| ==> Legal(items[i])
    ensures var body := PrintItems(items, indent); body != "" && !White(body[0]) && body[0] != ']'
  {
    ValueBegins(items[0], indent);
  }

  lemma NextOnNewLine(first: string, indent: string, others: string, end: string)
    ensures (first + (",\n" + indent + others)) + end == first + ("," + (("\n" + indent) + (others + end)))
  {
  }

  lemma NothingNext(first: string, end: string)
    ensures (first + "") + end == first + end
  {
  }

  lemma OnlyItemReadsBack(item: Json, indent: string, before: string, rest: string)
    requires ReadValue(Print(item, indent) + (before + "]" + rest)) == Some((item, before + "]" + rest)) && AllWhite(before)
    ensures ReadItems(Print(item, indent) + (before + "]" + rest)) == Some(([item], rest))
  {
    assert before + "]" + rest == before + ("]" + rest);
    SkipsWhite(before, "]" + rest);
    LastItem(Print(item, indent) + (before + "]" + rest), item, before + "]" + rest, rest);
  }

  lemma {:induction false} ItemsReadBack(items: seq<Json>, indent: string, before: string, rest: string)
    requires items != [] && AllWhite(indent) && AllWhite(before) && before != "" && forall i :: 0 <= i < |items| ==> Legal(items[i])
    ensures ReadItems(PrintItems(items, indent) + (before + "]" + rest)) == Some((items, rest))
    decreases items, 0
  {
    var first, end := Print(items[0], indent), before + "]" + rest;
    if |items| == 1 {
      assert items == [items[0]] && White(end[0]);
      NothingNext(first, end);
      ValueReadsBack(items[0], indent, end);
      OnlyItemReadsBack(items[0], indent, before, rest);
    } else {
      var others := PrintItems(items[1..], indent);
      var next := ("\n" + indent) + (others + end);
      NextOnNewLine(first, indent, others, end);
      ValueReadsBack(items[0], indent, "," + next);
      ItemsReadBack(items[1..], indent, before, rest);
      assert ReadItems(next) == ReadItems(others + end) by {
        ItemsBegin(items[1..], indent);
        SkipsWhite("\n" + indent, others + end);
        ItemsSkipWhite(next, others + end);
      }
      OneMoreItem(first + ("," + next), items[0], next, items[1..], rest);
      assert [items[0]] + items[1..] == items;
    }
  }

  lemma {:induction false} ObjectReadsBack(members: seq<Member>, indent: string, rest: string)
    requires members != [] && AllWhite(indent) && forall i :: 0 <= i < |members| ==> Legal(members[i].value)
    ensures ReadValue(Print(Obj(members), indent) + rest) == Some((Obj(members), rest))
    decreases members, 1
  {
    var body := PrintMembers(members, indent + GAP);
    var end := "\n" + indent + "}" + rest;
    var text := Print(Obj(members), indent) + rest;
    assert body[0] == '\"';
    assert text == ['{', '\n'] + (indent + GAP) + body + "\n" + indent + ['}'] + rest;
    OpenedBody('{', indent + GAP, body, end, indent, '}', rest);
    MembersReadBack(members, indent + GAP, "\n" + indent, rest);
    assert "\n" + indent + "}" + rest == "\n" + indent + ['}'] + rest;
    MembersSkipWhite(text[1..], body + end);
  }

  lemma MemberIs(text: string, key: string, after: string, m: Member, rest: string)
    requires ReadString(text) == Some((key, ":" + after)) && ReadValue(after) == Some((m.value, rest)) && key == m.key
    ensures ReadMember("\"" + text) == Some((m, rest))
  {
    assert ("\"" + text)[1..] == text && SkipWhite("\"" + text) == "\"" + text;
    assert (":" + after)[1..] == after && SkipWhite(":" + after) == ":" + after;
  }

  lemma MemberReadsBack(m: Member, value: string, rest: string)
    requires ReadValue(value) == Some((m.value, rest))
    ensures ReadMember(Quote(m.key) + ": " + value) == Some((m, rest))
  {
    var text := Escape(m.key) + "\"" + (":" + (" " + value));
    assert Quote(m.key) + ": " + value == "\"" + text;
    StringReadsBack(m.key, ":" + (" " + value));
    SkipsWhite(" ", value);
    ValueSkipsWhite(" " + value, value);
    MemberIs(text, m.key, " " + value, m, rest);
  }

  lemma ValueSkipsWhite(text: string, s: string)
    requires SkipWhite(text) == SkipWhite(s)
    ensures ReadValue(text) == ReadValue(s)
  {
  }

  lemma OnlyMemberReadsBack(text: string, m: Member, before: string, rest: string)
    requires ReadMember(text) == Some((m, before + "}" + rest)) && AllWhite(before)
    ensures ReadMembers(text) == Some(([m], rest))
  {
    assert before + "}" + rest == before + ("}" + rest);
    SkipsWhite(before, "}" + rest);
    LastMember(text, m, before + "}" + rest, rest);
  }

  lemma MembersOnNewLine(members: seq<Member>, indent: string, end: string)
    requires members != [] && AllWhite(indent)
    ensures ReadMembers(("\n" + indent) + (PrintMembers(members, indent) + end)) == ReadMembers(PrintMembers(members, indent) + end)
  {
    var text := PrintMembers(members, indent) + end;
    assert text[0] == '\"';
    SkipsWhite("\n" + indent, text);
    MembersSkipWhite(("\n" + indent) + text, text);
  }

  lemma MemberAndMore(head: string, value: string, end: string)
    ensures (head + value) + end == head + (value + end)
  {
  }

  lemma {:induction false} MembersReadBack(members: seq<Member>, indent: string, before: string, rest: string)
    requires members != [] && AllWhite(indent) && AllWhite(before) && before != "" && forall i :: 0 <= i < |members| ==> Legal(members[i].value)
    ensures ReadMembers(PrintMembers(members, indent) + (before + "}" + rest)) == Some((members, rest))
    decreases members, 0
  {
    var m, end := members[0], before + "}" + rest;
    var head, value := Quote(m.key) + ": ", Print(m.value, indent);
    if |members| == 1 {
      assert members == [m] && White(end[0]);
      NothingNext(head + value, end);
      MemberAndMore(head, value, end);
      ValueReadsBack(m.value, indent, end);
      MemberReadsBack(m, value + end, end);
      OnlyMemberReadsBack(head + (value + end), m, before, rest);
    } else {
      var others := PrintMembers(members[1..], indent);
      var next := ("\n" + indent) + (others + end);
      assert PrintMembers(members, indent) + end == head + (value + ("," + next)) by {
        NextOnNewLine(head + value, indent, others, end);
        MemberAndMore(head, value, "," + next);
      }
      assert ReadMember(head + (value + ("," + next))) == Some((m, "," + next)) by {
        ValueReadsBack(m.value, indent, "," + next);
        MemberReadsBack(m, value + ("," + next), "," + next);
      }
      MembersReadBack(members[1..], indent, before, rest);
      MembersOnNewLine(members[1..], indent, end);
      OneMoreMember(head + (value + ("," + next)), m, next, members[1..], rest);
      assert [m] + members[1..] == members;
    }
  }

  /** The whole printed text is one value, the one that was printed. */
  lemma PrintIsReadBack(v: Json)
    requires Legal(v)
    ensures ReadValue(Print(v, "")) == Some((v, ""))
  {
    ValueReadsBack(v, "", "");
    assert Print(v, "") + "" == Print(v, "");
  }

  /** So different values are never printed alike. */
  lemma PrintIsInjective(v: Json, u: Json)
    requires Legal(v) && Legal(u) && Print(v, "") == Print(u, "")
    ensures v == u
  {
    PrintIsReadBack(v);
    PrintIsReadBack(u);
  }
}
