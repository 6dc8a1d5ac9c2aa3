/** The lexical path functions of the two BUSY writers on a POSIX host, for absolute paths: Python's
    `normpath`, which drops a separator at the end and keeps two at the beginning, and Node's
    `normalize`, which does neither. */
module PosixPaths {
  predicate Absolute(v: string) {
    v != "" && v[0] == '/'
  }

  /** The parts between the separators. */
  function Split(s: string): (parts: seq<string>)
    ensures parts != []
  {
    if s == "" then [""]
    else if s[0] == '/' then [""] + Split(s[1..])
    else
      var rest := Split(s[1..]);
      [[s[0]] + rest[0]] + rest[1..]
  }

  /** The parts left once empty ones and `.` are skipped and `..` takes back the part before it. */
  function Walk(stack: seq<string>, parts: seq<string>): seq<string>
    decreases |parts|
  {
    if parts == [] then stack
    else if parts[0] == "" || parts[0] == "." then Walk(stack, parts[1..])
    else if parts[0] == ".." then Walk(if stack == [] then [] else stack[..|stack| - 1], parts[1..])
    else Walk(stack + [parts[0]], parts[1..])
  }

  function Joined(parts: seq<string>): string {
    if parts == [] then "" else if |parts| == 1 then parts[0] else parts[0] + "/" + Joined(parts[1..])
  }

  /** What a path leads to, from the root. */
  function Body(v: string): seq<string> {
    Walk([], Split(v))
  }

  /** Exactly two separators at the beginning mean something of their own. */
  predicate TwoSlashes(v: string) {
    |v| > 1 && v[0] == '/' && v[1] == '/' && !(|v| > 2 && v[2] == '/')
  }

  function PyNormal(v: string): string {
    (if TwoSlashes(v) then "//" else "/") + Joined(Body(v))
  }

  function NodeNormal(v: string): string {
    if Body(v) == [] then "/" else "/" + Joined(Body(v)) + (if v != "" && v[|v| - 1] == '/' then "/" else "")
  }

  // ----- parts -----

  predicate NoSlash(p: string) {
    '/' !in p
  }

  /** A part that a walk keeps. */
  predicate Ordinary(p: string) {
    p != "" && p != "." && p != ".." && NoSlash(p)
  }

  ghost predicate AllOrdinary(parts: seq<string>) {
    forall i :: 0 <= i < |parts| ==> Ordinary(parts[i])
  }

  ghost predicate AllNoSlash(parts: seq<string>) {
    forall i :: 0 <= i < |parts| ==> NoSlash(parts[i])
  }

  /** The characters of the parts and one separator for each. */
  function Size(parts: seq<string>): nat {
    if parts == [] then 0 else |parts[0]| + 1 + Size(parts[1..])
  }

  lemma {:induction false} SizeAppend(a: seq<string>, b: seq<string>)
    ensures Size(a + b) == Size(a) + Size(b)
  {
    if a == [] {
      assert a + b == b;
    } else {
      assert (a + b)[1..] == a[1..] + b;
      SizeAppend(a[1..], b);
    }
  }

  lemma {:induction false} SplitParts(s: string)
    ensures AllNoSlash(Split(s)) && Size(Split(s)) == |s| + 1
  {
    if s == "" {
    } else {
      SplitParts(s[1..]);
      var rest := Split(s[1..]);
      if s[0] == '/' {
        assert ([""] + rest)[1..] == rest;
      } else {
        assert ([[s[0]] + rest[0]] + rest[1..])[1..] == rest[1..];
      }
    }
  }

  lemma {:induction false} WalkKeepsOrdinary(stack: seq<string>, parts: seq<string>)
    requires AllOrdinary(stack) && AllNoSlash(parts)
    ensures AllOrdinary(Walk(stack, parts)) && Size(Walk(stack, parts)) <= Size(stack) + Size(parts)
    decreases |parts|
  {
    if parts == [] {
    } else {
      var next := if parts[0] == "" || parts[0] == "." then stack
                  else if parts[0] == ".." then (if stack == [] then [] else stack[..|stack| - 1])
                  else stack + [parts[0]];
      if parts[0] == ".." && stack != [] {
        SizeAppend(stack[..|stack| - 1], [stack[|stack| - 1]]);
        assert stack == stack[..|stack| - 1] + [stack[|stack| - 1]];
      }
      SizeAppend(stack, [parts[0]]);
      WalkKeepsOrdinary(next, parts[1..]);
    }
  }

  lemma {:induction false} WalkThroughOrdinary(stack: seq<string>, parts: seq<string>)
    requires AllOrdinary(parts)
    ensures Walk(stack, parts) == stack + parts
    decreases |parts|
  {
    if parts == [] {
    } else {
      WalkThroughOrdinary(stack + [parts[0]], parts[1..]);
      assert stack + [parts[0]] + parts[1..] == stack + parts;
    }
  }

  lemma {:induction false} WalkIgnoresLastEmpty(stack: seq<string>, parts: seq<string>)
    ensures Walk(stack, parts + [""]) == Walk(stack, parts)
    decreases |parts|
  {
    if parts == [] {
      assert parts + [""] == [""] && [""][1..] == [];
    } else {
      assert (parts + [""])[1..] == parts[1..] + [""];
      var next := if parts[0] == "" || parts[0] == "." then stack
                  else if parts[0] == ".." then (if stack == [] then [] else stack[..|stack| - 1])
                  else stack + [parts[0]];
      WalkIgnoresLastEmpty(next, parts[1..]);
    }
  }

  lemma {:induction false} SplitBeforeSlash(s: string)
    ensures Split(s + "/") == Split(s) + [""]
  {
    if s == "" {
      assert s + "/" == "/" && "/"[1..] == "";
    } else {
      assert (s + "/")[1..] == s[1..] + "/" && (s + "/")[0] == s[0];
      SplitBeforeSlash(s[1..]);
    }
  }

  /** A part and what comes after the separator behind it. */
  lemma {:induction false} SplitPart(p: string, rest: string)
    requires NoSlash(p)
    ensures Split(p + "/" + rest) == [p] + Split(rest)
  {
    var s := p + "/" + rest;
    if p == "" {
      assert s == "/" + rest && s[1..] == rest;
    } else {
      assert s[1..] == p[1..] + "/" + rest && s[0] == p[0];
      SplitPart(p[1..], rest);
      assert [p[0]] + p[1..] == p;
    }
  }

  lemma {:induction false} SplitOnePart(p: string)
    requires NoSlash(p)
    ensures Split(p) == [p]
  {
    if p == "" {
    } else {
      SplitOnePart(p[1..]);
      assert [p[0]] + p[1..] == p;
    }
  }

  lemma {:induction false} SplitJoined(parts: seq<string>)
    requires parts != [] && AllNoSlash(parts)
    ensures Split(Joined(parts)) == parts && |Joined(parts)| == Size(parts) - 1
    decreases |parts|
  {
    if |parts| == 1 {
      SplitOnePart(parts[0]);
      assert parts == [parts[0]] && Size(parts[1..]) == 0;
    } else {
      SplitJoined(parts[1..]);
      SplitPart(parts[0], Joined(parts[1..]));
    }
  }

  lemma SplitAfterSlash(rest: string)
    ensures Split("/" + rest) == [""] + Split(rest) && Walk([], Split("/" + rest)) == Walk([], Split(rest))
  {
    var s := "/" + rest;
    assert s[1..] == rest && s[0] == '/';
    assert ([""] + Split(rest))[1..] == Split(rest);
  }

  // ----- normal forms -----

  /** Written out from the root, ordinary parts are read back. */
  lemma BodyOfJoined(parts: seq<string>)
    requires AllOrdinary(parts)
    ensures Body("/" + Joined(parts)) == Body("//" + Joined(parts)) == parts
    ensures parts != [] ==> Body("/" + Joined(parts) + "/") == parts
    ensures parts != [] ==> Joined(parts) != "" && Joined(parts)[0] != '/' && Joined(parts)[|Joined(parts)| - 1] != '/'
  {
    var text := Joined(parts);
    SplitAfterSlash(text);
    SplitAfterSlash("/" + text);
    assert "/" + ("/" + text) == "//" + text;
    if parts == [] {
      assert [""][1..] == [];
    } else {
      SplitJoined(parts);
      WalkThroughOrdinary([], parts);
      SplitBeforeSlash("/" + text);
      WalkIgnoresLastEmpty([], Split("/" + text));
      JoinedEnds(parts);
    }
  }

  lemma {:induction false} JoinedEnds(parts: seq<string>)
    requires parts != [] && AllOrdinary(parts)
    ensures Joined(parts) != "" && Joined(parts)[0] != '/' && Joined(parts)[|Joined(parts)| - 1] != '/'
    decreases |parts|
  {
    assert NoSlash(parts[0]) && parts[0] != "";
    if |parts| <= 1 {
    } else {
      JoinedEnds(parts[1..]);
    }
  }

  /** What a path leads to is written no longer than the path. */
  lemma BodyIsShort(v: string)
    requires Absolute(v)
    ensures AllOrdinary(Body(v))
    ensures Body(v) != [] ==> |Joined(Body(v))| < |v|
    ensures Body(v) != [] && TwoSlashes(v) ==> |Joined(Body(v))| + 2 <= |v|
    ensures Body(v) != [] && v[|v| - 1] == '/' ==> |Joined(Body(v))| + 2 <= |v|
  {
    var rest := v[1..];
    assert v == "/" + rest;
    SplitAfterSlash(rest);
    SplitParts(rest);
    WalkKeepsOrdinary([], Split(rest));
    if Body(v) != [] {
      SplitJoined(Body(v));
      if TwoSlashes(v) {
        assert rest == "/" + rest[1..];
        SplitAfterSlash(rest[1..]);
        SplitParts(rest[1..]);
        WalkKeepsOrdinary([], Split(rest[1..]));
      }
      if v[|v| - 1] == '/' {
        ShorterBeforeSlash(v, rest);
      }
    }
  }

  lemma ShorterBeforeSlash(v: string, rest: string)
    requires v == "/" + rest && v[|v| - 1] == '/' && Body(v) != [] && Body(v) == Walk([], Split(rest))
    ensures Size(Body(v)) < |v|
  {
    RootLeadsNowhere();
    var front := rest[..|rest| - 1];
    assert rest == front + "/";
    SplitBeforeSlash(front);
    WalkIgnoresLastEmpty([], Split(front));
    SplitParts(front);
    WalkKeepsOrdinary([], Split(front));
  }

  lemma RootLeadsNowhere()
    ensures Walk([], Split("")) == [] && Body("/") == []
  {
    SplitAfterSlash("");
    assert "/" + "" == "/" && [""][1..] == [];
  }

  /** Python's normal form is absolute, stays what it is, and is no longer than the path. */
  lemma PyNormalIsNormal(v: string)
    requires Absolute(v)
    ensures Absolute(PyNormal(v)) && PyNormal(PyNormal(v)) == PyNormal(v) && |PyNormal(v)| <= |v|
  {
    BodyIsShort(v);
    BodyOfJoined(Body(v));
    var text := Joined(Body(v));
    if TwoSlashes(v) {
      assert TwoSlashes("//" + text);
    } else {
      assert !TwoSlashes("/" + text);
    }
  }

  /** So is Node's. */
  lemma NodeNormalIsNormal(v: string)
    requires Absolute(v)
    ensures Absolute(NodeNormal(v)) && NodeNormal(NodeNormal(v)) == NodeNormal(v) && |NodeNormal(v)| <= |v|
  {
    BodyIsShort(v);
    BodyOfJoined(Body(v));
    var text := Joined(Body(v));
    if Body(v) == [] {
      RootLeadsNowhere();
    } else {
      assert "/" + text + "" == "/" + text && ("/" + text)[|"/" + text| - 1] == text[|text| - 1];
    }
  }

  /** Node leaves Python's normal form as it is exactly when the path does not begin with just two separators. */
  lemma NodeKeepsPyNormalIff(v: string)
    requires Absolute(v)
    ensures NodeNormal(PyNormal(v)) == PyNormal(v) <==> !TwoSlashes(v)
  {
    BodyIsShort(v);
    BodyOfJoined(Body(v));
    var text := Joined(Body(v));
    if TwoSlashes(v) {
      assert PyNormal(v)[1] == '/';
      assert Body(v) != [] ==> ("/" + text)[1] == text[0];
    } else if Body(v) != [] {
      assert ("/" + text)[|"/" + text| - 1] == text[|text| - 1];
    }
  }

  /** Python leaves Node's normal form as it is exactly when the path does not end in a separator, the root excepted. */
  lemma PyKeepsNodeNormalIff(v: string)
    requires Absolute(v)
    ensures PyNormal(NodeNormal(v)) == NodeNormal(v) <==> v[|v| - 1] != '/' || Body(v) == []
  {
    BodyIsShort(v);
    BodyOfJoined(Body(v));
    var text := Joined(Body(v));
    if Body(v) == [] {
      RootLeadsNowhere();
      assert !TwoSlashes("/") && Joined([]) == "" && "/" + "" == "/";
    } else {
      assert "/" + text + "" == "/" + text;
      assert !TwoSlashes("/" + text) && !TwoSlashes("/" + text + "/");
    }
  }

  // ----- what a path means, part by part -----

  lemma {:induction false} SplitAtSlash(a: string, b: string)
    ensures Split(a + "/" + b) == Split(a) + Split(b)
  {
    var s := a + "/" + b;
    if a == "" {
      assert s == "/" + b && s[1..] == b;
    } else {
      assert s[0] == a[0] && s[1..] == a[1..] + "/" + b;
      SplitAtSlash(a[1..], b);
      if a[0] != '/' {
        var rest := Split(a[1..]);
        assert (rest + Split(b))[1..] == rest[1..] + Split(b);
      }
    }
  }

  /** One step of a walk. */
  function Entered(stack: seq<string>, part: string): seq<string> {
    if part == "" || part == "." then stack
    else if part == ".." then if stack == [] then [] else stack[..|stack| - 1]
    else stack + [part]
  }

  lemma {:induction false} WalkOneMore(stack: seq<string>, parts: seq<string>, part: string)
    ensures Walk(stack, parts + [part]) == Entered(Walk(stack, parts), part)
    decreases |parts|
  {
    var all := parts + [part];
    if parts == [] {
      assert all == [part] && [part][1..] == [];
    } else {
      assert all[0] == parts[0] && all[1..] == parts[1..] + [part];
      WalkOneMore(Entered(stack, parts[0]), parts[1..], part);
    }
  }

  /** A path leads where it leads without its last part, and from there into it: a name goes down, two
      dots go up and not beyond the root, one dot or nothing stays. */
  lemma PathGoesPartByPart(v: string, part: string)
    requires NoSlash(part)
    ensures Body(v + "/" + part) == Entered(Body(v), part)
  {
    SplitAtSlash(v, part);
    SplitOnePart(part);
    WalkOneMore([], Split(v), part);
  }

  /** Python's normal form begins with two separators exactly when the path begins with just two. */
  lemma TwoSeparatorsStayIff(v: string)
    requires Absolute(v)
    ensures "//" <= PyNormal(v) <==> exists rest :: v == "//" + rest && (rest == "" || rest[0] != '/')
  {
    BodyIsShort(v);
    BodyOfJoined(Body(v));
    if TwoSlashes(v) {
      assert v == "//" + v[2..];
    } else {
      assert PyNormal(v) == "/" + Joined(Body(v));
    }
  }
}
