/** JSON text as JSON.stringify writes it with an indent of two, after section 25.5.2 of ECMA-262.
    A `char` stands for one code unit other than a lone surrogate. */
module SnapshotJson {
  import opened Basics

  datatype Member = Member(key: string, value: Json)

  /** A number is the text it is written as. */
  datatype Json = Null | Bool(b: bool) | Number(text: string) | Str(s: string) | Arr(items: seq<Json>) | Obj(members: seq<Member>)

  const GAP := "  "

  function HexDigit(n: int): char
    requires 0 <= n < 16
  {
    "0123456789abcdef"[n]
  }

  /** One character inside a quoted string. */
  function EscapeChar(c: char): string {
    if c == '\U{8}' then "\\b"
    else if c == '\t' then "\\t"
    else if c == '\n' then "\\n"
    else if c == '\U{C}' then "\\f"
    else if c == '\r' then "\\r"
    else if c == '\"' then "\\\""
    else if c == '\\' then "\\\\"
    else if c < ' ' then "\\u00" + [HexDigit(c as int / 16), HexDigit(c as int % 16)]
    else [c]
  }

  function Escape(s: string): string {
    if s == "" then "" else EscapeChar(s[0]) + Escape(s[1..])
  }

  function Quote(s: string): string {
    "\"" + Escape(s) + "\""
  }

  /** The value, its continuation lines indented by `indent`. */
  function Print(v: Json, indent: string): string
    decreases v
  {
    match v
    case Null => "null"
    case Bool(b) => if b then "true" else "false"
    case Number(text) => text
    case Str(s) => Quote(s)
    case Arr(items) =>
      if items == [] then "[]" else "[\n" + (indent + GAP) + PrintItems(items, indent + GAP) + "\n" + indent + "]"
    case Obj(members) =>
      if members == [] then "{}" else "{\n" + (indent + GAP) + PrintMembers(members, indent + GAP) + "\n" + indent + "}"
  }

  function PrintItems(items: seq<Json>, indent: string): string
    requires items != []
    decreases items
  {
    Print(items[0], indent) + if |items| == 1 then "" else ",\n" + indent + PrintItems(items[1..], indent)
  }

  function PrintMembers(members: seq<Member>, indent: string): string
    requires members != []
    decreases members
  {
    Quote(members[0].key) + ": " + Print(members[0].value, indent) +
    if |members| == 1 then "" else ",\n" + indent + PrintMembers(members[1..], indent)
  }

  /** Every line end followed by `pad`. */
  function Reindent(s: string, pad: string): string {
    if s == "" then ""
    else PadLineEnd(s[0], pad) + Reindent(s[1..], pad)
  }

  function PadLineEnd(c: char, pad: string): string {
    if c == '\n' then "\n" + pad else [c]
  }

  lemma {:induction false} ReindentConcat(a: string, b: string, pad: string)
    ensures Reindent(a + b, pad) == Reindent(a, pad) + Reindent(b, pad)
  {
    if a == "" {
      assert a + b == b;
    } else {
      ReindentConcat(a[1..], b, pad);
      assert (a + b)[1..] == a[1..] + b;
      Assoc(PadLineEnd(a[0], pad), Reindent(a[1..], pad), Reindent(b, pad));
    }
  }

  lemma {:induction false} ReindentOneLine(s: string, pad: string)
    requires '\n' !in s
    ensures Reindent(s, pad) == s
  {
    if s == "" {
    } else {
      ReindentOneLine(s[1..], pad);
    }
  }

  lemma {:induction false} EscapeIsOneLine(s: string)
    ensures '\n' !in Escape(s)
  {
    if s == "" {
    } else {
      EscapeCharIsOneLine(s[0]);
      EscapeIsOneLine(s[1..]);
    }
  }

  lemma EscapeCharIsOneLine(c: char)
    ensures '\n' !in EscapeChar(c)
  {
    if c < ' ' {
      assert forall n :: 0 <= n < 16 ==> HexDigit(n) != '\n';
    }
  }

  lemma QuoteStays(s: string, pad: string)
    ensures Reindent(Quote(s), pad) == Quote(s)
  {
    EscapeIsOneLine(s);
    ReindentOneLine(Quote(s), pad);
  }

  /** Number texts have no line ends. */
  ghost predicate Plain(v: Json)
    decreases v
  {
    match v
    case Number(text) => '\n' !in text
    case Arr(items) => forall i :: 0 <= i < |items| ==> Plain(items[i])
    case Obj(members) => forall i :: 0 <= i < |members| ==> Plain(members[i].value)
    case _ => true
  }

  /** A piece that reindenting leaves alone, and one that ends a line. */
  ghost predicate Stays(s: string, pad: string) {
    Reindent(s, pad) == s
  }

  ghost predicate EndsLine(s: string, pad: string) {
    Reindent(s, pad) == s + pad
  }

  lemma Pieces(pad: string)
    ensures EndsLine("{\n", pad) && EndsLine("[\n", pad) && EndsLine("\n", pad) && EndsLine(",\n", pad)
    ensures Stays("}", pad) && Stays("]", pad) && Stays(": ", pad) && Stays("null", pad) && Stays("true", pad) && Stays("false", pad)
    ensures Stays("{}", pad) && Stays("[]", pad)
  {
    OneLineEnd("{", pad);
    OneLineEnd("[", pad);
    OneLineEnd("", pad);
    OneLineEnd(",", pad);
    ReindentOneLine("}", pad);
    ReindentOneLine("]", pad);
    ReindentOneLine(": ", pad);
    ReindentOneLine("null", pad);
    ReindentOneLine("true", pad);
    ReindentOneLine("false", pad);
    ReindentOneLine("{}", pad);
    ReindentOneLine("[]", pad);
  }

  lemma OneLineEnd(s: string, pad: string)
    requires '\n' !in s
    ensures EndsLine(s + "\n", pad)
  {
    var nl := "\n";
    ReindentConcat(s, nl, pad);
    ReindentOneLine(s, pad);
    assert nl[1..] == "" && Reindent(nl, pad) == nl + pad;
    Assoc(s, nl, pad);
  }

  /** An opening line, an indented body, and an indented closing line. */
  lemma ReindentBlock(open: string, inner: string, body: string, nl: string, indent: string, close: string, pad: string)
    requires EndsLine(open, pad) && Stays(inner, pad) && EndsLine(nl, pad) && Stays(indent, pad) && Stays(close, pad)
    ensures Reindent(open + inner + body + nl + indent + close, pad)
            == open + (pad + inner) + Reindent(body, pad) + nl + (pad + indent) + close
  {
    ReindentConcat(open + inner + body + nl + indent, close, pad);
    ReindentConcat(open + inner + body + nl, indent, pad);
    ReindentConcat(open + inner + body, nl, pad);
    ReindentConcat(open + inner, body, pad);
    ReindentConcat(open, inner, pad);
    Assoc(open, pad, inner);
    var before := open + (pad + inner) + Reindent(body, pad);
    Assoc(before, nl, pad);
    Assoc(before + nl, pad, indent);
  }

  /** A first element, and the rest on the next line. */
  lemma ReindentNext(first: string, comma: string, indent: string, rest: string, pad: string)
    requires EndsLine(comma, pad) && Stays(indent, pad)
    ensures Reindent(first + (comma + indent + rest), pad)
            == Reindent(first, pad) + (comma + (pad + indent) + Reindent(rest, pad))
  {
    ReindentConcat(first, comma + indent + rest, pad);
    ReindentConcat(comma + indent, rest, pad);
    ReindentConcat(comma, indent, pad);
    Assoc(comma, pad, indent);
  }

  /** Reindenting the text of a value is printing it one level deeper. */
  lemma {:induction false} ReindentIsDeeper(v: Json, indent: string, pad: string)
    requires Plain(v) && '\n' !in indent
    ensures Reindent(Print(v, indent), pad) == Print(v, pad + indent)
    decreases v
  {
    Pieces(pad);
    match v
    case Number(text) => ReindentOneLine(text, pad);
    case Str(s) => QuoteStays(s, pad);
    case Arr(items) =>
      if items != [] {
        ItemsDeeper(items, indent + GAP, pad);
        DeeperBlock("[\n", PrintItems(items, indent + GAP), PrintItems(items, pad + (indent + GAP)), indent, "]", pad);
      }
    case Obj(members) =>
      if members != [] {
        MembersDeeper(members, indent + GAP, pad);
        DeeperBlock("{\n", PrintMembers(members, indent + GAP), PrintMembers(members, pad + (indent + GAP)), indent, "}", pad);
      }
    case _ =>
  }

  lemma DeeperBlock(open: string, body: string, deeper: string, indent: string, close: string, pad: string)
    requires EndsLine(open, pad) && EndsLine("\n", pad) && Stays(close, pad) && '\n' !in indent && Reindent(body, pad) == deeper
    ensures Reindent(open + (indent + GAP) + body + "\n" + indent + close, pad)
            == open + ((pad + indent) + GAP) + deeper + "\n" + (pad + indent) + close
    ensures (pad + indent) + GAP == pad + (indent + GAP)
  {
    ReindentOneLine(indent, pad);
    ReindentOneLine(indent + GAP, pad);
    Assoc(pad, indent, GAP);
    ReindentBlock(open, indent + GAP, body, "\n", indent, close, pad);
  }

  lemma {:induction false} ItemsDeeper(items: seq<Json>, indent: string, pad: string)
    requires items != [] && '\n' !in indent && forall i :: 0 <= i < |items| ==> Plain(items[i])
    ensures Reindent(PrintItems(items, indent), pad) == PrintItems(items, pad + indent)
    decreases items
  {
    ReindentIsDeeper(items[0], indent, pad);
    if |items| > 1 {
      ItemsDeeper(items[1..], indent, pad);
      Pieces(pad);
      ReindentOneLine(indent, pad);
      ReindentNext(Print(items[0], indent), ",\n", indent, PrintItems(items[1..], indent), pad);
    } else {
      assert Print(items[0], indent) + "" == Print(items[0], indent);
    }
  }

  lemma MemberDeeper(m: Member, text: string, deeper: string, pad: string)
    requires Reindent(text, pad) == deeper
    ensures Reindent(Quote(m.key) + ": " + text, pad) == Quote(m.key) + ": " + deeper
  {
    Pieces(pad);
    QuoteStays(m.key, pad);
    ReindentConcat(Quote(m.key) + ": ", text, pad);
    ReindentConcat(Quote(m.key), ": ", pad);
  }

  lemma {:induction false} MembersDeeper(members: seq<Member>, indent: string, pad: string)
    requires members != [] && '\n' !in indent && forall i :: 0 <= i < |members| ==> Plain(members[i].value)
    ensures Reindent(PrintMembers(members, indent), pad) == PrintMembers(members, pad + indent)
    decreases members
  {
    var text := Print(members[0].value, indent);
    var first := Quote(members[0].key) + ": " + text;
    ReindentIsDeeper(members[0].value, indent, pad);
    MemberDeeper(members[0], text, Print(members[0].value, pad + indent), pad);
    if |members| > 1 {
      MembersDeeper(members[1..], indent, pad);
      Pieces(pad);
      ReindentOneLine(indent, pad);
      ReindentNext(first, ",\n", indent, PrintMembers(members[1..], indent), pad);
    } else {
      assert first + "" == first;
    }
  }
}
