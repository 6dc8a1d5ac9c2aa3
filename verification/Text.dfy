/** Characters and trimming as JavaScript sees them. A `char` stands for one UTF-16 unit. */
module Text {

  /** The class `\s`, which is also what `trim` removes. */
  predicate IsSpace(c: char) {
    || c == ' ' || c == '\t' || c == '\n' || c == '\r' || c == '\U{0B}' || c == '\U{0C}'
    || c == '\U{A0}' || c == '\U{1680}' || '\U{2000}' <= c <= '\U{200A}' || c == '\U{2028}' || c == '\U{2029}'
    || c == '\U{202F}' || c == '\U{205F}' || c == '\U{3000}' || c == '\U{FEFF}'
  }

  predicate Blank(s: string) {
    forall i :: 0 <= i < |s| ==> IsSpace(s[i])
  }

  /** Lower case for ASCII letters. */
  function LowerChar(c: char): char {
    if 'A' <= c <= 'Z' then c - 'A' + 'a' else c
  }

  function Lower(s: string): string {
    seq(|s|, i requires 0 <= i < |s| => LowerChar(s[i]))
  }

  function TrimStart(s: string): string {
    if s != "" && IsSpace(s[0]) then TrimStart(s[1..]) else s
  }

  function TrimEnd(s: string): string {
    if s != "" && IsSpace(s[|s| - 1]) then TrimEnd(s[..|s| - 1]) else s
  }

  function Trim(s: string): string {
    TrimEnd(TrimStart(s))
  }

  lemma {:induction false} TrimStartSplits(s: string) returns (pad: string)
    ensures s == pad + TrimStart(s) && Blank(pad)
    ensures TrimStart(s) != "" ==> !IsSpace(TrimStart(s)[0])
  {
    if s != "" && IsSpace(s[0]) {
      var rest := TrimStartSplits(s[1..]);
      pad := [s[0]] + rest;
      assert s == [s[0]] + s[1..];
    } else {
      pad := "";
    }
  }

  lemma {:induction false} TrimEndSplits(s: string) returns (pad: string)
    ensures s == TrimEnd(s) + pad && Blank(pad)
    ensures TrimEnd(s) != "" ==> !IsSpace(TrimEnd(s)[|TrimEnd(s)| - 1])
  {
    if s != "" && IsSpace(s[|s| - 1]) {
      var rest := TrimEndSplits(s[..|s| - 1]);
      pad := rest + [s[|s| - 1]];
      assert s == s[..|s| - 1] + [s[|s| - 1]];
    } else {
      pad := "";
    }
  }

  /** Trimming removes a blank prefix and a blank suffix, and leaves nothing exactly when all was blank. */
  lemma TrimSplits(s: string) returns (before: string, after: string)
    ensures s == before + Trim(s) + after && Blank(before) && Blank(after)
    ensures Trim(s) == "" <==> Blank(s)
  {
    before := TrimStartSplits(s);
    after := TrimEndSplits(TrimStart(s));
    assert s == before + Trim(s) + after;
    if Trim(s) != "" {
      assert s[|before| + |Trim(s)| - 1] == Trim(s)[|Trim(s)| - 1];
    }
  }

  // ----- the classes written out -----

  const UPPER := "ABCDEFGHIJKLMNOPQRSTUVWXYZ"
  const LOWER := "abcdefghijklmnopqrstuvwxyz"

  lemma Alphabet(text: string, first: char, last: char, c: char)
    requires |text| == last as int - first as int + 1 && forall i :: 0 <= i < |text| ==> text[i] as int == first as int + i
    ensures c in text <==> first <= c <= last
  {
    if first <= c <= last {
      assert text[c as int - first as int] == c;
    }
  }

  lemma LetterAt(k: nat)
    requires k < 26
    ensures UPPER[k] as int == 'A' as int + k && LOWER[k] as int == 'a' as int + k
  {
  }

  /** An upper-case letter becomes the lower-case letter at its place in the alphabet, and nothing else changes. */
  lemma LowerCharIs(c: char)
    ensures if c in UPPER then exists k :: 0 <= k < 26 && c == UPPER[k] && LowerChar(c) == LOWER[k] else LowerChar(c) == c
  {
    Alphabet(UPPER, 'A', 'Z', c);
    if 'A' <= c <= 'Z' {
      LetterAt(c as int - 'A' as int);
      assert UPPER[c as int - 'A' as int] == c;
    }
  }

  /** The line terminators of section 12.3 of ECMA-262, and its white space, section 12.2: the tabs, the
      form feed, the byte order mark, and the characters that Unicode classes as spaces. */
  const LINE_TERMINATORS := "\n\r\U{2028}\U{2029}"
  const WHITE_SPACE := "\t\U{0B}\U{0C}\U{FEFF} \U{A0}\U{1680}\U{202F}\U{205F}\U{3000}" + EN_TO_HAIR
  const EN_TO_HAIR := "\U{2000}\U{2001}\U{2002}\U{2003}\U{2004}\U{2005}\U{2006}\U{2007}\U{2008}\U{2009}\U{200A}"

  lemma IsSpaceIff(c: char)
    ensures IsSpace(c) <==> c in LINE_TERMINATORS || c in WHITE_SPACE
  {
    Alphabet(EN_TO_HAIR, '\U{2000}', '\U{200A}', c);
  }
}
