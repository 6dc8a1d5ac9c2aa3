/** How the BUSY coordinator names a scope. Text is ASCII; absolute paths are normalised by the
    platform's path library, which enters as a parameter. */
module BusyScopes {
  import opened Basics
  import opened Text

  /** The platform's lexical path functions. */
  datatype Paths = Paths(isAbsolute: string -> bool, normal: string -> string)

  /** An absolute path starts with a separator or a drive and is one without its surrounding blanks
      too; its normal form is an absolute path that stays what it is and is no longer. */
  ghost predicate PathsOk(p: Paths) {
    && (forall v :: p.isAbsolute(v) ==> v != "" && (v[0] == '/' || v[0] == '\\' || (|v| > 1 && v[1] == ':')))
    && (forall v :: p.isAbsolute(v) ==> p.isAbsolute(Trim(v)))
    && (forall v :: p.isAbsolute(v) ==>
          p.isAbsolute(p.normal(v)) && p.normal(p.normal(v)) == p.normal(v) && |p.normal(v)| <= |v|)
  }

  predicate Trimmed(s: string) {
    s != "" && !IsSpace(s[0]) && !IsSpace(s[|s| - 1])
  }

  /** The position of the first colon, or the length. */
  function Colon(s: string): (n: nat)
    ensures n <= |s| && (n < |s| ==> s[n] == ':')
    ensures forall i :: 0 <= i < n ==> s[i] != ':'
  {
    if s == "" || s[0] == ':' then 0 else 1 + Colon(s[1..])
  }

  /** The repositories known under two names. */
  function RepoAlias(lower: string): Option<string> {
    if lower == "regression-research" || lower == "organicoverlords/regression-research" then Some("regression-research")
    else if lower == "agents" || lower == "organicoverlords/agents" then Some("agents")
    else None
  }

  /** The canonical name, or nothing for a blank one. */
  function CanonicalScope(scope: string, p: Paths): Option<string> {
    var value := Trim(scope);
    if value == "" then None
    else if p.isAbsolute(value) then Some(p.normal(value))
    else
      var n := Colon(value);
      match RepoAlias(Lower(value[..n]))
      case Some(repo) => Some(repo + value[n..])
      case None => Some(value)
  }

  lemma TrimIsTrimmed(s: string)
    ensures Trim(s) != "" ==> Trimmed(Trim(s))
  {
    var before := TrimStartSplits(s);
    var after := TrimEndSplits(TrimStart(s));
    if Trim(s) != "" {
      assert TrimStart(s)[0] == Trim(s)[0];
    }
  }

  lemma TrimmedStays(s: string)
    requires Trimmed(s)
    ensures Trim(s) == s
  {
  }

  /** What the stability of names needs to know about the short name of a repository. */
  ghost predicate ShortName(repo: string) {
    && |repo| > 1 && !IsSpace(repo[0]) && !IsSpace(repo[|repo| - 1])
    && repo[0] != '/' && repo[0] != '\\' && ':' !in repo
    && RepoAlias(Lower(repo)) == Some(repo)
  }

  lemma LowerStays(s: string)
    requires forall i :: 0 <= i < |s| ==> !('A' <= s[i] <= 'Z')
    ensures Lower(s) == s
  {
  }

  lemma AliasesAreShortNames(lower: string)
    ensures RepoAlias(lower).Some? ==> ShortName(RepoAlias(lower).value)
  {
    LowerStays("regression-research");
    LowerStays("agents");
  }

  /** A suffix of a repository's name, as it ends a trimmed scope. */
  predicate SuffixOk(rest: string) {
    rest == "" || (rest[0] == ':' && !IsSpace(rest[|rest| - 1]))
  }

  /** A spelling `name` of a repository, with or without a suffix, is replaced by the short name. */
  lemma SpelledScope(s: string, name: string, rest: string, p: Paths)
    requires PathsOk(p) && s == name + rest && |name| > 1
    requires !IsSpace(name[0]) && !IsSpace(name[|name| - 1]) && name[0] != '/' && name[0] != '\\' && ':' !in name
    requires SuffixOk(rest)
    ensures CanonicalScope(s, p) ==
            match RepoAlias(Lower(name)) case Some(repo) => Some(repo + rest) case None => Some(s)
  {
    assert s[0] == name[0] && s[1] == name[1];
    TrimmedStays(s);
    ColonAfter(s, name, rest);
  }

  lemma ColonAfter(s: string, name: string, rest: string)
    requires s == name + rest && ':' !in name && (rest == "" || rest[0] == ':')
    ensures Colon(s) == |name| && s[..|name|] == name && s[|name|..] == rest
  {
    assert forall i :: 0 <= i < |name| ==> s[i] == name[i];
    assert rest != "" ==> s[|name|] == ':';
  }

  lemma TrimIsShorter(s: string)
    requires s != "" && !Trimmed(s)
    ensures |Trim(s)| < |s|
  {
    var before, after := TrimSplits(s);
    TrimIsTrimmed(s);
    assert |s| == |before| + |Trim(s)| + |after|;
    assert before == "" && after == "" ==> s == Trim(s);
  }

  lemma PathIsStableIff(value: string, p: Paths)
    requires PathsOk(p) && p.isAbsolute(value)
    ensures CanonicalScope(p.normal(value), p) == Some(p.normal(value)) <==> Trimmed(p.normal(value))
  {
    var n := p.normal(value);
    assert p.isAbsolute(n);
    if Trimmed(n) {
      TrimmedStays(n);
    } else {
      TrimIsShorter(n);
      assert p.isAbsolute(Trim(n));
    }
  }

  /** A canonical name is its own canonical name exactly when it is no path whose normal form keeps
      a blank at an end. */
  lemma CanonicalScopeIsStableIff(scope: string, p: Paths)
    requires PathsOk(p)
    ensures var c := CanonicalScope(scope, p);
            c.Some? ==> (CanonicalScope(c.value, p) == c <==> (p.isAbsolute(Trim(scope)) ==> Trimmed(p.normal(Trim(scope)))))
  {
    var value := Trim(scope);
    TrimIsTrimmed(scope);
    if value != "" {
      if p.isAbsolute(value) {
        PathIsStableIff(value, p);
      } else {
        TrimmedStays(value);
        LogicalScopeIsStable(value, p);
      }
    }
  }

  lemma LogicalScopeIsStable(value: string, p: Paths)
    requires PathsOk(p) && Trimmed(value) && Trim(value) == value && !p.isAbsolute(value)
    ensures CanonicalScope(value, p).Some? && CanonicalScope(CanonicalScope(value, p).value, p) == CanonicalScope(value, p)
  {
    var n := Colon(value);
    var alias := RepoAlias(Lower(value[..n]));
    AliasesAreShortNames(Lower(value[..n]));
    if alias.Some? {
      SpelledScope(alias.value + value[n..], alias.value, value[n..], p);
    }
  }

  /** Every spelling of a known repository, in any letter case, names one scope. */
  lemma RepoSpellingsCollide(a: string, b: string, suffix: string, p: Paths)
    requires PathsOk(p) && SuffixOk(suffix)
    ensures var repo := RepoAlias(Lower(a));
            repo.Some? && RepoAlias(Lower(b)) == repo ==>
              CanonicalScope(a + suffix, p) == CanonicalScope(b + suffix, p) == Some(repo.value + suffix)
  {
    if RepoAlias(Lower(a)).Some? && RepoAlias(Lower(b)) == RepoAlias(Lower(a)) {
      SpellingIsPlain(a);
      SpellingIsPlain(b);
      SpelledScope(a + suffix, a, suffix, p);
      SpelledScope(b + suffix, b, suffix, p);
    }
  }

  /** The repository that a scope begins with. */
  function RepoOf(value: string): Option<string> {
    RepoAlias(Lower(value[..Colon(value)]))
  }

  function SuffixOf(value: string): string {
    value[Colon(value)..]
  }

  lemma AliasKeepsParts(value: string)
    requires RepoOf(value).Some?
    ensures var name := RepoOf(value).value + SuffixOf(value);
            RepoOf(name) == RepoOf(value) && SuffixOf(name) == SuffixOf(value)
  {
    var repo := RepoOf(value).value;
    AliasesAreShortNames(Lower(value[..Colon(value)]));
    ColonAfter(repo + SuffixOf(value), repo, SuffixOf(value));
  }

  /** Two scopes that are no paths are one scope exactly when they are the same text but for blanks around
      it, or spell the same repository with the same suffix. */
  lemma LogicalScopesCollideIff(a: string, b: string, p: Paths)
    requires Trim(a) != "" && Trim(b) != "" && !p.isAbsolute(Trim(a)) && !p.isAbsolute(Trim(b))
    ensures var v, w := Trim(a), Trim(b);
            CanonicalScope(a, p) == CanonicalScope(b, p) <==>
            v == w || (RepoOf(v).Some? && RepoOf(v) == RepoOf(w) && SuffixOf(v) == SuffixOf(w))
  {
    var v, w := Trim(a), Trim(b);
    if RepoOf(v).Some? {
      AliasKeepsParts(v);
    }
    if RepoOf(w).Some? {
      AliasKeepsParts(w);
    }
  }

  predicate PlainChar(c: char) {
    'a' <= c <= 'z' || 'A' <= c <= 'Z' || c == '-' || c == '/'
  }

  lemma PlainLower(s: string, i: nat)
    requires i < |s| && PlainChar(Lower(s)[i])
    ensures PlainChar(s[i]) && (Lower(s)[i] != '/' ==> s[i] != '/')
  {
  }

  lemma PlainIsNoSpace(c: char)
    requires PlainChar(c)
    ensures !IsSpace(c) && c != ':' && c != '\\'
  {
  }

  predicate PlainName(s: string) {
    |s| > 1 && s[0] != '/' && forall i :: 0 <= i < |s| ==> PlainChar(s[i])
  }

  lemma AliasesArePlain(lower: string)
    ensures RepoAlias(lower).Some? ==> PlainName(lower)
  {
    assert PlainName("regression-research") && PlainName("agents");
    assert PlainName("organicoverlords/regression-research") && PlainName("organicoverlords/agents");
  }

  lemma PlainBeforeLower(name: string)
    requires PlainName(Lower(name))
    ensures PlainName(name)
  {
    PlainLower(name, 0);
    forall i | 0 <= i < |name| ensures PlainChar(name[i]) {
      PlainLower(name, i);
    }
  }

  lemma SpellingIsPlain(name: string)
    requires RepoAlias(Lower(name)).Some?
    ensures |name| > 1 && !IsSpace(name[0]) && !IsSpace(name[|name| - 1]) && name[0] != '/' && name[0] != '\\' && ':' !in name
  {
    AliasesArePlain(Lower(name));
    PlainBeforeLower(name);
    PlainIsNoSpace(name[0]);
    PlainIsNoSpace(name[|name| - 1]);
  }

  /** A relative path without a namespace, which could name the same file twice. */
  predicate AmbiguousScope(scope: string, p: Paths) {
    var value := Trim(scope);
    value != "" && !p.isAbsolute(value) && ('/' in value || '\\' in value) && ':' !in value
  }

  const HARNESSES: seq<string> := ["ChatGPT", "Codex", "Claude", "OpenCode", "CommandCode", "Traycer"]

  predicate NamesHarness(value: string, harness: string) {
    harness <= value &&
    var rest := value[|harness|..];
    |rest| > 1 && rest[0] in "-:/" && Trim(rest[1..]) != ""
  }

  /** The trimmed actor, if it is a known harness followed by a separator and a suffix. */
  method ValidateClaimActor(actor: string) returns (r: Option<string>)
    ensures r == ValidActor(actor)
  {
    var value := Trim(actor);
    for i := 0 to |HARNESSES|
      invariant forall j :: 0 <= j < i ==> !NamesHarness(value, HARNESSES[j])
    {
      if HARNESSES[i] <= value {
        var rest := value[|HARNESSES[i]|..];
        if |rest| > 1 && rest[0] in "-:/" && Trim(rest[1..]) != "" {
          return Some(value);
        }
      }
    }
    return None;
  }

  function ValidActor(actor: string): Option<string> {
    if exists j :: 0 <= j < |HARNESSES| && NamesHarness(Trim(actor), HARNESSES[j]) then Some(Trim(actor)) else None
  }

  // ----- which names are known, which scopes are ambiguous, and which actors are accepted -----

  /** A repository is known by its short name, and by that name behind the owner's. */
  lemma RepoAliasIff(lower: string, repo: string)
    ensures RepoAlias(lower) == Some(repo) <==>
            repo in {"regression-research", "agents"} && (lower == repo || lower == "organicoverlords/" + repo)
  {
    assert "organicoverlords/" + "regression-research" == "organicoverlords/regression-research";
    assert "organicoverlords/" + "agents" == "organicoverlords/agents";
    assert "regression-research"[0] != "agents"[0];
    assert |"organicoverlords/" + "agents"| != |"regression-research"|;
    assert |"organicoverlords/" + "regression-research"| != |"agents"|;
  }

  /** A scope is ambiguous exactly when, without the blanks around it, it is no absolute path and has a
      separator but no colon. */
  lemma AmbiguousIff(scope: string, p: Paths)
    ensures AmbiguousScope(scope, p) <==>
            && !p.isAbsolute(Trim(scope))
            && (exists i :: 0 <= i < |Trim(scope)| && (Trim(scope)[i] == '/' || Trim(scope)[i] == '\\'))
            && (forall i :: 0 <= i < |Trim(scope)| ==> Trim(scope)[i] != ':')
  {
  }

  /** The actor begins with the harness, a separator and something that is not blank. */
  ghost predicate SpeaksAs(value: string, harness: string, separator: char, suffix: string) {
    && harness in {"ChatGPT", "Codex", "Claude", "OpenCode", "CommandCode", "Traycer"}
    && (separator == '-' || separator == ':' || separator == '/')
    && value == harness + [separator] + suffix && !Blank(suffix)
  }

  ghost predicate Speaks(value: string) {
    exists harness, separator, suffix :: SpeaksAs(value, harness, separator, suffix)
  }

  lemma HarnessSpeaks(value: string, harness: string)
    requires harness in HARNESSES && NamesHarness(value, harness)
    ensures Speaks(value)
  {
    var rest := value[|harness|..];
    var before, after := TrimSplits(rest[1..]);
    assert value == harness + [rest[0]] + rest[1..];
    assert SpeaksAs(value, harness, rest[0], rest[1..]);
  }

  lemma SpeakerNamesHarness(value: string, harness: string, separator: char, suffix: string)
    requires SpeaksAs(value, harness, separator, suffix)
    ensures harness in HARNESSES && NamesHarness(value, harness)
  {
    var rest := value[|harness|..];
    assert rest == [separator] + suffix && rest[1..] == suffix;
    var before, after := TrimSplits(suffix);
    assert harness == HARNESSES[0] || harness == HARNESSES[1] || harness == HARNESSES[2]
           || harness == HARNESSES[3] || harness == HARNESSES[4] || harness == HARNESSES[5];
  }

  /** An actor is accepted exactly when, without the blanks around it, it is a known harness, a separator
      and something that is not blank; and then it is taken without those blanks. */
  lemma ActorIsAcceptedIff(actor: string)
    ensures ValidActor(actor) == if Speaks(Trim(actor)) then Some(Trim(actor)) else None
  {
    var value := Trim(actor);
    if j :| 0 <= j < |HARNESSES| && NamesHarness(value, HARNESSES[j]) {
      HarnessSpeaks(value, HARNESSES[j]);
    }
    if harness, separator, suffix :| SpeaksAs(value, harness, separator, suffix) {
      SpeakerNamesHarness(value, harness, separator, suffix);
    }
  }
}
