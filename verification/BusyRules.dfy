/** The two writers' own ways of reading scopes and actors, and which of their names both keep. */
module BusyRules {
  import opened Basics
  import opened Text
  import opened BusyRecords
  import opened BusyScopes
  import opened BusyHistory
  import opened BusyOperations
  import opened BusyWriters
  import opened BusyFiles
  import opened BusyFileRuns
  import opened BusyNaming
  import opened PosixPaths

  function RulesFor(python: Paths, node: Paths): Rules {
    Rules((s: string) => CanonicalScope(s, python), (s: string) => CanonicalScope(s, node),
          (s: string) => BusyScopes.AmbiguousScope(s, python), (a: string) => ValidActor(a))
  }

  /** Both libraries agree on which paths are absolute. */
  ghost predicate SameAbsolutes(p: Paths, q: Paths) {
    forall v :: p.isAbsolute(v) == q.isAbsolute(v)
  }

  lemma PathIsKeptIff(c: string, p: Paths, q: Paths)
    requires PathsOk(p) && PathsOk(q) && SameAbsolutes(p, q) && p.isAbsolute(c) && p.normal(c) == c
    ensures CanonicalScope(c, p) == Some(c) == CanonicalScope(c, q) <==> Trimmed(c) && q.normal(c) == c
  {
    PathIsStableIff(c, p);
    if Trimmed(c) {
      TrimmedStays(c);
    }
  }

  /** A name that one library gives is kept by both exactly when it is no path, or one without a
      blank at its end that the other library's normal form leaves as it is. */
  lemma NameIsKeptIff(scope: string, p: Paths, q: Paths)
    requires PathsOk(p) && PathsOk(q) && SameAbsolutes(p, q)
    ensures var c, v := CanonicalScope(scope, p), Trim(scope);
            c.Some? ==>
              (CanonicalScope(c.value, p) == c == CanonicalScope(c.value, q) <==>
               (p.isAbsolute(v) ==> Trimmed(p.normal(v)) && q.normal(p.normal(v)) == p.normal(v)))
  {
    var v := Trim(scope);
    TrimIsTrimmed(scope);
    if v != "" {
      if p.isAbsolute(v) {
        PathIsKeptIff(p.normal(v), p, q);
      } else {
        TrimmedStays(v);
        LogicalScopeIsStable(v, p);
        LogicalScopeIsStable(v, q);
        assert CanonicalScope(v, p) == CanonicalScope(v, q) == CanonicalScope(scope, p);
      }
    }
  }

  lemma PythonNameIsSettledIff(scope: string, python: Paths, node: Paths)
    requires PathsOk(python) && PathsOk(node) && SameAbsolutes(python, node)
    ensures var c, v := CanonicalScope(scope, python), Trim(scope);
            c.Some? ==>
              (Settled(c.value, RulesFor(python, node)) <==>
               (python.isAbsolute(v) ==> Trimmed(python.normal(v)) && node.normal(python.normal(v)) == python.normal(v)))
  {
    NameIsKeptIff(scope, python, node);
  }

  lemma TypeScriptNameIsSettledIff(scope: string, python: Paths, node: Paths)
    requires PathsOk(python) && PathsOk(node) && SameAbsolutes(python, node)
    ensures var c, v := CanonicalScope(scope, node), Trim(scope);
            c.Some? ==>
              (Settled(c.value, RulesFor(python, node)) <==>
               (node.isAbsolute(v) ==> Trimmed(node.normal(v)) && python.normal(node.normal(v)) == node.normal(v)))
  {
    NameIsKeptIff(scope, node, python);
  }

  // ----- on a POSIX host -----

  const PYTHON_POSIX := Paths((v: string) => Absolute(v), (v: string) => PyNormal(v))
  const NODE_POSIX := Paths((v: string) => Absolute(v), (v: string) => NodeNormal(v))

  const POSIX := RulesFor(PYTHON_POSIX, NODE_POSIX)

  lemma {:induction false} TrimEndKeepsFirst(s: string)
    requires s != "" && !IsSpace(s[0])
    ensures TrimEnd(s) != "" && TrimEnd(s)[0] == s[0]
  {
    if !IsSpace(s[|s| - 1]) {
    } else {
      TrimEndKeepsFirst(s[..|s| - 1]);
    }
  }

  /** The path functions of both writers are path functions. */
  lemma PosixPathsOk()
    ensures PathsOk(PYTHON_POSIX) && PathsOk(NODE_POSIX) && SameAbsolutes(PYTHON_POSIX, NODE_POSIX)
  {
    forall v | Absolute(v)
      ensures Absolute(Trim(v))
      ensures Absolute(PyNormal(v)) && PyNormal(PyNormal(v)) == PyNormal(v) && |PyNormal(v)| <= |v|
      ensures Absolute(NodeNormal(v)) && NodeNormal(NodeNormal(v)) == NodeNormal(v) && |NodeNormal(v)| <= |v|
    {
      TrimEndKeepsFirst(v);
      PyNormalIsNormal(v);
      NodeNormalIsNormal(v);
    }
  }

  /** The names of a path. */
  lemma PosixPathNames(scope: string)
    requires Absolute(Trim(scope))
    ensures POSIX.canon(scope) == Some(PyNormal(Trim(scope))) && POSIX.tsCanon(scope) == Some(NodeNormal(Trim(scope)))
    ensures !POSIX.ambiguous(scope)
  {
  }

  lemma PyNormalIsKeptIff(c: string)
    requires Absolute(c) && PyNormal(c) == c
    ensures Settled(c, POSIX) <==> Trimmed(c) && NodeNormal(c) == c
  {
    PosixPathsOk();
    PathIsKeptIff(c, PYTHON_POSIX, NODE_POSIX);
  }

  lemma NodeNormalIsKeptIff(c: string)
    requires Absolute(c) && NodeNormal(c) == c
    ensures Settled(c, POSIX) <==> Trimmed(c) && PyNormal(c) == c
  {
    PosixPathsOk();
    PathIsKeptIff(c, NODE_POSIX, PYTHON_POSIX);
  }

  /** A scope that is no path has one name, which both writers keep. */
  lemma PosixLogicalIsSettled(scope: string)
    requires Trim(scope) != "" && !Absolute(Trim(scope))
    ensures POSIX.canon(scope).Some? && POSIX.tsCanon(scope) == POSIX.canon(scope) && Settled(POSIX.canon(scope).value, POSIX)
  {
    PosixPathsOk();
    PythonNameIsSettledIff(scope, PYTHON_POSIX, NODE_POSIX);
  }

  /** A scope asked for through the coordinator is safe exactly when it is no path, or a path that
      does not begin with just two separators and whose normal form has no blank at its end. */
  lemma PosixPythonNameIsSettledIff(scope: string)
    requires Trim(scope) != ""
    ensures var v := Trim(scope);
            POSIX.canon(scope).Some? &&
            (Settled(POSIX.canon(scope).value, POSIX) <==> (Absolute(v) ==> !TwoSlashes(v) && Trimmed(PyNormal(v))))
  {
    if Absolute(Trim(scope)) {
      PosixPathNames(scope);
      PyNormalIsNormal(Trim(scope));
      PyNormalIsKeptIff(PyNormal(Trim(scope)));
      NodeKeepsPyNormalIff(Trim(scope));
    } else {
      PosixLogicalIsSettled(scope);
    }
  }

  /** A scope asked for through the server is safe exactly when it is no path, or a path that does not
      end in a separator, the root excepted, and whose normal form has no blank at its end. */
  lemma PosixTypeScriptNameIsSettledIff(scope: string)
    requires Trim(scope) != ""
    ensures var v := Trim(scope);
            POSIX.tsCanon(scope).Some? &&
            (Settled(POSIX.tsCanon(scope).value, POSIX) <==>
             (Absolute(v) ==> (v[|v| - 1] != '/' || Body(v) == []) && Trimmed(NodeNormal(v))))
  {
    if Absolute(Trim(scope)) {
      PosixPathNames(scope);
      NodeNormalIsNormal(Trim(scope));
      NodeNormalIsKeptIff(NodeNormal(Trim(scope)));
      PyKeepsNodeNormalIff(Trim(scope));
    } else {
      PosixLogicalIsSettled(scope);
    }
  }

  // ----- the failing inputs -----

  /** A path as it is usually written: from the root, without a blank or a separator at its end. */
  ghost predicate UsualPath(path: string, parts: seq<string>) {
    parts != [] && AllOrdinary(parts) && path == "/" + Joined(parts) && Trimmed(path)
  }

  lemma UsualPathIsKept(path: string, parts: seq<string>)
    requires UsualPath(path, parts)
    ensures POSIX.canon(path) == Some(path) == POSIX.tsCanon(path) && !POSIX.ambiguous(path)
    ensures POSIX.canon(path + "/") == Some(path) && POSIX.tsCanon(path + "/") == Some(path + "/")
  {
    UsualPathIsNormal(path, parts);
    TrimmedStays(path);
    TrimmedStays(path + "/");
    PosixPathNames(path);
    PosixPathNames(path + "/");
  }

  lemma UsualPathIsNormal(path: string, parts: seq<string>)
    requires parts != [] && AllOrdinary(parts) && path == "/" + Joined(parts)
    ensures PyNormal(path) == path == NodeNormal(path) && PyNormal(path + "/") == path && NodeNormal(path + "/") == path + "/"
  {
    BodyOfJoined(parts);
    var text := Joined(parts);
    assert path[1] == text[0] && (path + "/")[1] == path[1];
    assert path[|path| - 1] == text[|text| - 1];
    assert "/" + text + "" == path;
  }

  /** While somebody holds a path, the server grants the same path with a separator behind it to
      somebody else; after that the coordinator cannot read the store. */
  lemma TrailingSeparatorOverlaps(raw: RawStore, now: int, after: RawStore, answer: Result<Answer, Error>,
                                  path: string, parts: seq<string>, x: string, y: string)
    requires UsualPath(path, parts) && x != y && Sound(raw, POSIX)
    requires Owns(Reading(raw, POSIX.canon).value, path, x) && Running(Reading(raw, POSIX.canon).value, path, now)
    requires FileStep(raw, TypeScript(TsClaim(y, path + "/"), now), after, answer, POSIX)
    ensures answer == Ok(Claimed(path + "/", Holder(y, now))) && LoadClaims(after.claims, POSIX.canon).Err?
  {
    UsualPathIsKept(path, parts);
    UnkeptNameOverlaps(raw, TypeScript(TsClaim(y, path + "/"), now), after, answer, POSIX, path, x, path + "/", y, true);
  }

  lemma {:induction false} JoinedWithBlank(parts: seq<string>)
    requires parts != []
    ensures var n := |parts| - 1; Joined(parts[..n] + [parts[n] + " "]) == Joined(parts) + " "
    decreases |parts|
  {
    var n := |parts| - 1;
    if n == 0 {
    } else {
      JoinedWithBlank(parts[1..]);
      assert (parts[..n] + [parts[n] + " "])[1..] == parts[1..][..n - 1] + [parts[1..][n - 1] + " "];
    }
  }

  lemma TrimDropsBlank(s: string)
    requires Trimmed(s)
    ensures Trim(s + " ") == s
  {
    assert (s + " ")[..|s|] == s;
    TrimmedStays(s);
  }

  lemma BlankEndIsNormal(path: string, parts: seq<string>)
    requires UsualPath(path, parts)
    ensures PyNormal(path + " /") == path + " "
  {
    var n := |parts| - 1;
    var blank := parts[..n] + [parts[n] + " "];
    JoinedWithBlank(parts);
    assert (path + " ") + "/" == path + " /" && "/" + (Joined(parts) + " ") == path + " ";
    assert AllOrdinary(blank) by {
      assert NoSlash(parts[n] + " ") && (parts[n] + " ")[|parts[n]|] == ' ';
    }
    UsualPathIsNormal(path + " ", blank);
  }

  /** The coordinator's name for a path that keeps a blank before its last separator is one that it
      replaces itself when it reads it again. */
  lemma BlankEndIsNotKept(path: string, parts: seq<string>)
    requires UsualPath(path, parts)
    ensures POSIX.canon(path + " /") == Some(path + " ") && POSIX.canon(path + " ") == Some(path) && !POSIX.ambiguous(path + " /")
  {
    BlankEndIsNormal(path, parts);
    TrimmedStays(path + " /");
    PosixPathNames(path + " /");
    TrimDropsBlank(path);
    UsualPathIsNormal(path, parts);
    PosixPathNames(path + " ");
  }

  /** While somebody holds a path, the coordinator grants somebody else what is spelled with a blank
      and a separator behind it; after that it cannot read the store itself. */
  lemma BlankEndOverlaps(raw: RawStore, now: int, lag: nat, after: RawStore, answer: Result<Answer, Error>,
                         path: string, parts: seq<string>, x: string, y: string, lease: int)
    requires UsualPath(path, parts) && x != y && ValidActor(y) == Some(y) && Sound(raw, POSIX)
    requires Owns(Reading(raw, POSIX.canon).value, path, x) && Running(Reading(raw, POSIX.canon).value, path, now)
    requires FileStep(raw, Python(Act(Claim, Some(path + " /"), Some(y), lease, None, None), now, lag), after, answer, POSIX)
    ensures answer == Ok(Claimed(path + " ", Holder(y, now))) && LoadClaims(after.claims, POSIX.canon).Err?
  {
    BlankEndIsNotKept(path, parts);
    UnkeptNameOverlaps(raw, Python(Act(Claim, Some(path + " /"), Some(y), lease, None, None), now, lag), after, answer, POSIX,
                       path, x, path + " ", y, true);
  }

  /** A run from the first file on: the coordinator grants a path to one actor, and one millisecond
      later the server grants the same path, with a separator behind it, to another. */
  lemma TwoActorsHoldOnePath(path: string, parts: seq<string>, x: string, y: string)
    returns (files: seq<RawStore>, events: seq<Event>, answers: seq<Result<Answer, Error>>)
    requires UsualPath(path, parts) && ValidActor(x) == Some(x) && x != y
    ensures FileRun(files, events, answers, POSIX) && |events| == 2 && files[0] == NO_FILE
    ensures answers == [Ok(Claimed(path, Holder(x, 0))), Ok(Claimed(path + "/", Holder(y, 1)))]
    ensures LoadClaims(files[2].claims, POSIX.canon).Err?
  {
    UsualPathIsKept(path, parts);
    var e0 := Python(Act(Claim, Some(path), Some(x), 240, None, None), 0, 0);
    var e1 := TypeScript(TsClaim(y, path + "/"), 1);
    var first := FirstGrant(POSIX, e0, path, x);
    var answer0: Result<Answer, Error> := Ok(Claimed(path, Holder(x, 0)));
    var second, answer1 := ServerStepExists(first, TsClaim(y, path + "/"), 1, POSIX);
    assert answer1 == Ok(Claimed(path + "/", Holder(y, 1))) && LoadClaims(second.claims, POSIX.canon).Err? by {
      FirstIsHeld(first, e0, path, x, POSIX);
      TrailingSeparatorOverlaps(first, 1, second, answer1, path, parts, x, y);
    }
    files, events, answers := [NO_FILE, first, second], [e0, e1], [answer0, answer1];
    assert StepAt(files, events, answers, POSIX, 0) && StepAt(files, events, answers, POSIX, 1);
  }
}
