/** The snapshot serialiser: the payload's fields one by one, each value printed on its own and
    indented afterwards, with the extents of the fields a reader must not be given in pieces. */
module SnapshotPayload {
  import opened Basics
  import opened SnapshotJson
  import opened Text

  datatype Range = Range(start: nat, end: nat, key: string)

  const LISTED: set<string> :=
    {"rules", "bootstrap_end", "coverage", "session", "source", "schema", "semantics", "view"}

  const MARKED: set<string> := {"rule", "rules", "contract", "contracts"}

  function Underscore(s: string): (n: nat)
    ensures n <= |s| && (n < |s| ==> s[n] == '_')
    ensures forall i :: 0 <= i < n ==> s[i] != '_'
  {
    if s == "" || s[0] == '_' then 0 else 1 + Underscore(s[1..])
  }

  /** One of the words between underscores is a marked one, in any letter case. */
  predicate HasMarkedWord(key: string)
    decreases |key|
  {
    var n := Underscore(key);
    Lower(key[..n]) in MARKED || (n < |key| && HasMarkedWord(key[n + 1..]))
  }

  predicate Protected(key: string) {
    key in LISTED || HasMarkedWord(key)
  }

  /** The pattern itself: a marked word with an underscore or an end on either side of it. */
  ghost predicate MarkedAt(key: string, i: nat, j: nat) {
    && i <= j <= |key| && Lower(key[i..j]) in MARKED
    && (i == 0 || key[i - 1] == '_') && (j == |key| || key[j] == '_')
  }

  lemma MarkedWordsHaveNoUnderscore(s: string)
    requires Lower(s) in MARKED
    ensures '_' !in s
  {
    var lower := Lower(s);
    assert forall k :: 0 <= k < |lower| ==> lower[k] != '_';
    assert forall k :: 0 <= k < |s| ==> lower[k] == LowerChar(s[k]);
  }

  lemma FirstWordMarked(key: string, i: nat, j: nat)
    requires MarkedAt(key, i, j) && i <= Underscore(key)
    ensures Lower(key[..Underscore(key)]) in MARKED
  {
    var word := key[i..j];
    MarkedWordsHaveNoUnderscore(word);
    assert i == 0;
    assert forall k :: 0 <= k < j ==> word[k] == key[k];
    assert j == Underscore(key);
    assert word == key[..j];
  }

  /** Past an underscore the pattern matches as in the rest alone. */
  lemma MarkedInRest(key: string, n: nat, i: nat, j: nat)
    requires n < |key| && key[n] == '_' && n < i && j <= |key|
    ensures MarkedAt(key, i, j) <==> (i <= j && MarkedAt(key[n + 1..], i - n - 1, j - n - 1))
  {
    if i <= j {
      assert key[i..j] == key[n + 1..][i - n - 1..j - n - 1];
    }
  }

  ghost predicate Marked(key: string) {
    exists i: nat, j: nat :: MarkedAt(key, i, j)
  }

  lemma MarkedIsInRest(key: string, n: nat)
    requires n == Underscore(key) && Lower(key[..n]) !in MARKED && Marked(key)
    ensures n < |key| && Marked(key[n + 1..])
  {
    var i: nat, j: nat :| MarkedAt(key, i, j);
    assert i > n by {
      if i <= n {
        FirstWordMarked(key, i, j);
      }
    }
    MarkedInRest(key, n, i, j);
  }

  lemma RestIsMarked(key: string, n: nat)
    requires n < |key| && key[n] == '_' && Marked(key[n + 1..])
    ensures Marked(key)
  {
    var i: nat, j: nat :| MarkedAt(key[n + 1..], i, j);
    MarkedInRest(key, n, n + 1 + i, n + 1 + j);
  }

  /** Splitting at underscores finds exactly what the pattern matches. */
  lemma {:induction false} MarkedWordIff(key: string)
    ensures HasMarkedWord(key) <==> Marked(key)
    decreases |key|
  {
    var n := Underscore(key);
    if Lower(key[..n]) in MARKED {
      assert key[0..n] == key[..n];
      assert MarkedAt(key, 0, n);
    } else {
      if Marked(key) {
        MarkedIsInRest(key, n);
      }
      if n < |key| {
        MarkedWordIff(key[n + 1..]);
        if Marked(key[n + 1..]) {
          RestIsMarked(key, n);
        }
      }
    }
  }

  /** A field is protected for its whole name, or for a marked word in it, in any letter case, between
      underscores or ends. */
  lemma ProtectedIff(key: string)
    ensures Protected(key) <==>
            || key in LISTED
            || exists i: nat, j: nat :: i <= j <= |key| && Lower(key[i..j]) in MARKED
                                        && (i == 0 || key[i - 1] == '_') && (j == |key| || key[j] == '_')
  {
    MarkedWordIff(key);
    if Marked(key) {
      var i: nat, j: nat :| MarkedAt(key, i, j);
      assert Lower(key[i..j]) in MARKED;
    }
    if i: nat, j: nat :| i <= j <= |key| && Lower(key[i..j]) in MARKED && (i == 0 || key[i - 1] == '_') && (j == |key| || key[j] == '_') {
      assert MarkedAt(key, i, j);
    }
  }

  /** One field as the serialiser appends it. */
  function FieldText(m: Member, last: bool): string {
    "  " + Quote(m.key) + ": " + Reindent(Print(m.value, ""), "  ") + (if last then "" else ",") + "\n"
  }

  function FieldTexts(members: seq<Member>): (texts: seq<string>)
    ensures |texts| == |members|
  {
    seq(|members|, i requires 0 <= i < |members| => FieldText(members[i], i + 1 == |members|))
  }

  // ----- extents of consecutive texts -----

  /** The first `n` texts in a row. */
  function Joined(texts: seq<string>, n: nat): string
    requires n <= |texts|
  {
    if n == 0 then "" else Joined(texts, n - 1) + texts[n - 1]
  }

  /** Where text `i` begins and ends behind an opening brace and a line end. */
  function Extent(texts: seq<string>, i: nat, key: string): Range
    requires i < |texts|
  {
    Range(2 + |Joined(texts, i)|, 2 + |Joined(texts, i + 1)|, key)
  }

  /** The extents of the protected ones among the first `n` fields. */
  function ProtectedRanges(members: seq<Member>, texts: seq<string>, n: nat): seq<Range>
    requires n <= |members| == |texts|
  {
    if n == 0 then []
    else
      var before := ProtectedRanges(members, texts, n - 1);
      if Protected(members[n - 1].key) then before + [Extent(texts, n - 1, members[n - 1].key)] else before
  }

  lemma {:induction false} JoinedGrows(texts: seq<string>, i: nat, n: nat)
    requires i <= n <= |texts|
    ensures Joined(texts, i) <= Joined(texts, n)
  {
    if i >= n {
    } else {
      JoinedGrows(texts, i, n - 1);
    }
  }

  lemma Cut(open: string, head: string, field: string, all: string, close: string)
    requires head + field <= all
    ensures var whole := open + all + close;
            |open| + |head| + |field| <= |whole| && whole[|open| + |head|..|open| + |head| + |field|] == field
  {
    var whole := open + all + close;
    forall k | 0 <= k < |field| ensures whole[|open| + |head| + k] == field[k] {
      assert (head + field)[|head| + k] == all[|head| + k];
    }
  }

  /** An extent cuts out exactly its text. */
  lemma ExtentCutsText(texts: seq<string>, i: nat, key: string, open: string, whole: string)
    requires i < |texts| && |open| == 2 && whole == open + Joined(texts, |texts|) + "}"
    ensures var r := Extent(texts, i, key); r.end <= |whole| && whole[r.start..r.end] == texts[i]
  {
    var head, text, all := Joined(texts, i), texts[i], Joined(texts, |texts|);
    assert Joined(texts, i + 1) == head + text;
    assert head + text <= all by {
      JoinedGrows(texts, i + 1, |texts|);
    }
    Cut(open, head, text, all, "}");
  }

  ghost predicate Ordered(ranges: seq<Range>, length: nat) {
    && (forall i :: 0 <= i < |ranges| ==> ranges[i].start < ranges[i].end <= length)
    && (forall i, j :: 0 <= i < j < |ranges| ==> ranges[i].end <= ranges[j].start)
  }

  lemma OrderedPush(ranges: seq<Range>, length: nat, r: Range)
    requires Ordered(ranges, length) && length <= r.start < r.end
    ensures Ordered(ranges + [r], r.end) && Ordered(ranges, r.end)
  {
  }

  /** The protected extents follow one another without overlap, inside the text. */
  lemma {:induction false} ProtectedRangesAreOrdered(members: seq<Member>, texts: seq<string>, n: nat)
    requires n <= |members| == |texts| && forall i :: 0 <= i < |texts| ==> texts[i] != ""
    ensures Ordered(ProtectedRanges(members, texts, n), 2 + |Joined(texts, n)|)
  {
    if n == 0 {
    } else {
      ProtectedRangesAreOrdered(members, texts, n - 1);
      OrderedPush(ProtectedRanges(members, texts, n - 1), 2 + |Joined(texts, n - 1)|, Extent(texts, n - 1, members[n - 1].key));
    }
  }

  ghost predicate IsProtectedField(members: seq<Member>, texts: seq<string>, r: Range, i: nat)
    requires i < |members| == |texts|
  {
    Protected(members[i].key) && r == Extent(texts, i, members[i].key)
  }

  lemma {:induction false} RangeIsOneOf(members: seq<Member>, texts: seq<string>, n: nat, r: Range)
    returns (i: nat)
    requires n <= |members| == |texts| && r in ProtectedRanges(members, texts, n)
    ensures i < n && IsProtectedField(members, texts, r, i)
  {
    var before := ProtectedRanges(members, texts, n - 1);
    if r in before {
      i := RangeIsOneOf(members, texts, n - 1, r);
    } else {
      i := n - 1;
    }
  }

  lemma {:induction false} FieldHasRange(members: seq<Member>, texts: seq<string>, n: nat, i: nat)
    requires i < n <= |members| == |texts| && Protected(members[i].key)
    ensures Extent(texts, i, members[i].key) in ProtectedRanges(members, texts, n)
  {
    if i >= n - 1 {
    } else {
      FieldHasRange(members, texts, n - 1, i);
    }
  }

  /** They are the extents of the protected fields, all of them and no others. */
  lemma ProtectedRangesAreFields(members: seq<Member>, texts: seq<string>, n: nat, r: Range)
    requires n <= |members| == |texts|
    ensures r in ProtectedRanges(members, texts, n) <==> exists i :: 0 <= i < n && IsProtectedField(members, texts, r, i)
  {
    if r in ProtectedRanges(members, texts, n) {
      var i := RangeIsOneOf(members, texts, n, r);
    }
    if exists i :: 0 <= i < n && IsProtectedField(members, texts, r, i) {
      var i :| 0 <= i < n && IsProtectedField(members, texts, r, i);
      FieldHasRange(members, texts, n, i);
    }
  }

  // ----- the text -----

  lemma OneMoreField(members: seq<Member>, texts: seq<string>, index: nat, stdout: string)
    requires |texts| == |members| && index < |members| && stdout == "{\n" + Joined(texts, index)
    ensures stdout + texts[index] == "{\n" + Joined(texts, index + 1)
    ensures ProtectedRanges(members, texts, index + 1) ==
            if Protected(members[index].key)
            then ProtectedRanges(members, texts, index) + [Range(|stdout|, |stdout + texts[index]|, members[index].key)]
            else ProtectedRanges(members, texts, index)
  {
    Assoc("{\n", Joined(texts, index), texts[index]);
  }

  /** The extent of each field cuts out exactly the field and bears its key. */
  ghost predicate CutsOut(members: seq<Member>, texts: seq<string>, stdout: string)
    requires |texts| == |members|
  {
    forall i :: 0 <= i < |members| ==>
      var r := Extent(texts, i, members[i].key);
      r.key == members[i].key && r.end <= |stdout| && stdout[r.start..r.end] == texts[i]
  }

  lemma ExtentsCutOutFields(members: seq<Member>, texts: seq<string>, stdout: string)
    requires |texts| == |members| && stdout == "{\n" + Joined(texts, |members|) + "}"
    ensures CutsOut(members, texts, stdout)
  {
    forall i | 0 <= i < |members|
      ensures var r := Extent(texts, i, members[i].key); r.end <= |stdout| && stdout[r.start..r.end] == texts[i]
    {
      ExtentCutsText(texts, i, members[i].key, "{\n", stdout);
    }
  }

  /** The whole text, and the extents of all protected fields. */
  method SerializeSnapshotPayload(members: seq<Member>) returns (stdout: string, protectedRanges: seq<Range>)
    requires Plain(Obj(members))
    ensures stdout == if members == [] then "{\n}" else Print(Obj(members), "")
    ensures protectedRanges == ProtectedRanges(members, FieldTexts(members), |members|)
    ensures CutsOut(members, FieldTexts(members), stdout)
  {
    ghost var texts := FieldTexts(members);
    FieldsAreTheObject(members);
    stdout, protectedRanges := AppendFields(members, texts);
    stdout := stdout + "}";
    ExtentsCutOutFields(members, texts, stdout);
  }

  method AppendFields(members: seq<Member>, ghost texts: seq<string>) returns (stdout: string, protectedRanges: seq<Range>)
    requires AreFields(texts, members)
    ensures stdout == "{\n" + Joined(texts, |members|)
    ensures protectedRanges == ProtectedRanges(members, texts, |members|)
  {
    stdout := "{\n";
    protectedRanges := [];
    for index := 0 to |members|
      invariant stdout == "{\n" + Joined(texts, index)
      invariant protectedRanges == ProtectedRanges(members, texts, index)
    {
      var start := |stdout|;
      OneMoreField(members, texts, index, stdout);
      ghost var text := texts[index];
      stdout := AppendField(stdout, members[index], index + 1 == |members|, text);
      var end := |stdout|;
      if Protected(members[index].key) {
        protectedRanges := protectedRanges + [Range(start, end, members[index].key)];
      }
    }
  }

  method AppendField(before: string, m: Member, last: bool, ghost text: string) returns (stdout: string)
    requires text == FieldText(m, last)
    ensures stdout == before + text
  {
    var serializedValue := Print(m.value, "");
    var indentedValue := Reindent(serializedValue, "  ");
    var field := "  " + Quote(m.key) + ": " + indentedValue;
    stdout := before + field;
    if !last {
      stdout := stdout + ",";
    }
    stdout := stdout + "\n";
    FieldAppended(before, field, if last then "" else ",");
  }

  lemma FieldAppended(before: string, field: string, comma: string)
    ensures before + field + comma + "\n" == before + (field + comma + "\n")
    ensures before + field + "" == before + field
  {
  }

  /** All texts in a row, read from the front. */
  function InARow(texts: seq<string>): string {
    if texts == [] then "" else texts[0] + InARow(texts[1..])
  }

  lemma {:induction false} JoinedIsInARow(texts: seq<string>, n: nat)
    requires n <= |texts|
    ensures Joined(texts, |texts|) == Joined(texts, n) + InARow(texts[n..])
    decreases |texts| - n
  {
    if n < |texts| {
      var rest := texts[n..];
      JoinedIsInARow(texts, n + 1);
      assert rest[1..] == texts[n + 1..] && rest[0] == texts[n];
      Assoc(Joined(texts, n), texts[n], InARow(rest[1..]));
    } else {
      assert Joined(texts, n) + "" == Joined(texts, n);
    }
  }

  /** A field is its member printed one level down. */
  lemma FieldIsMember(m: Member, last: bool)
    requires Plain(m.value)
    ensures FieldText(m, last) == "  " + Quote(m.key) + ": " + Print(m.value, "  ") + (if last then "" else ",") + "\n"
  {
    ReindentIsDeeper(m.value, "", "  ");
    assert "  " + "" == "  ";
  }

  lemma LastField(name: string, value: string)
    ensures "  " + name + ": " + value + "" + "\n" + "" == "  " + (name + ": " + value + "") + "\n"
  {
  }

  lemma NextField(name: string, value: string, rest: string)
    ensures "  " + name + ": " + value + "," + "\n" + ("  " + rest + "\n")
            == "  " + (name + ": " + value + (",\n" + "  " + rest)) + "\n"
  {
  }

  /** `texts` are the fields of `members`. */
  ghost predicate AreFields(texts: seq<string>, members: seq<Member>) {
    |texts| == |members| && forall i :: 0 <= i < |members| ==> texts[i] == FieldText(members[i], i + 1 == |members|)
  }

  lemma {:induction false} FieldsArePrinted(members: seq<Member>, texts: seq<string>)
    requires members != [] && AreFields(texts, members) && forall i :: 0 <= i < |members| ==> Plain(members[i].value)
    ensures InARow(texts) == "  " + PrintMembers(members, "  ") + "\n"
    decreases |members|
  {
    var m := members[0];
    var name, value := Quote(m.key), Print(m.value, "  ");
    FieldIsMember(m, |members| == 1);
    if |members| == 1 {
      assert InARow(texts[1..]) == "";
      LastField(name, value);
    } else {
      assert AreFields(texts[1..], members[1..]) by {
        forall i | 0 <= i < |members| - 1 ensures texts[1..][i] == FieldText(members[1..][i], i + 1 == |members[1..]|) {
          assert texts[i + 1] == FieldText(members[i + 1], i + 2 == |members|);
        }
      }
      FieldsArePrinted(members[1..], texts[1..]);
      NextField(name, value, PrintMembers(members[1..], "  "));
    }
  }

  lemma WholeObject(members: seq<Member>, texts: seq<string>)
    requires members != [] && Plain(Obj(members)) && AreFields(texts, members)
    ensures "{\n" + Joined(texts, |texts|) + "}" == Print(Obj(members), "")
  {
    var body := PrintMembers(members, "  ");
    assert Joined(texts, |texts|) == "  " + body + "\n" by {
      JoinedIsInARow(texts, 0);
      FieldsArePrinted(members, texts);
      assert texts[0..] == texts && "" + InARow(texts) == InARow(texts);
    }
    Braces("{\n", body, "\n", "}");
    assert "" + GAP == "  ";
  }

  lemma Braces(open: string, body: string, nl: string, close: string)
    ensures open + ("  " + body + nl) + close == open + "  " + body + nl + "" + close
  {
  }

  lemma EmptyBraces()
    ensures "{\n" + "" + "}" == "{\n}" != "{}"
  {
    assert |"{\n}"| == 3 && |"{}"| == 2;
  }

  /** For a payload with fields, the text is the whole object as JSON.stringify prints it; for one
      without, it is not: the serialiser leaves a line end between the braces. */
  lemma FieldsAreTheObject(members: seq<Member>)
    requires Plain(Obj(members))
    ensures var text := "{\n" + Joined(FieldTexts(members), |members|) + "}";
            && text == (if members == [] then "{\n}" else Print(Obj(members), ""))
            && (text == Print(Obj(members), "") <==> members != [])
  {
    if members == [] {
      EmptyBraces();
    } else {
      WholeObject(members, FieldTexts(members));
    }
  }
}
