/** The BUSY store file, and what a writer makes of it: one claim a scope, one job a claim. */
module BusyRecords {
  import opened Basics

  /** Times are milliseconds. */
  const LEASE_CAP_MS := 240_000

  /** How scopes are named; see BusyScopes. */
  type Canon = string -> Option<string>

  /** An element of the stored claim list; one without the three text fields is malformed. */
  datatype RawClaim = Malformed | RawClaim(actor: string, scope: string, timestamp: int)

  /** A stored job, as far as a writer looks at it; `scope` is empty when it is missing. */
  datatype RawJob = NotAJob | RawJob(scope: string, lease: Option<int>, checkpoint: Option<string>)

  /** A member of the stored jobs object. Where two of them name one scope, the list is in key
      order, in which the Python writer reads them. */
  datatype JobEntry = JobEntry(key: string, job: RawJob)

  datatype Holder = Holder(actor: string, timestamp: int)

  datatype Job = Job(scope: string, owner: string, lease: int, claimTimestamp: int, checkpoint: Option<string>)

  type Claims = map<string, Holder>
  type Jobs = map<string, Job>

  datatype LoadError = EmptyScope | Conflict(scope: string)

  // ----- loading claims -----

  function AddClaim(claims: Claims, c: RawClaim, canon: Canon): Result<Claims, LoadError> {
    if c.Malformed? then Ok(claims)
    else
      var scope := canon(c.scope);
      if scope.None? then Err(EmptyScope)
      else if scope.value !in claims then Ok(claims[scope.value := Holder(c.actor, c.timestamp)])
      else if claims[scope.value].actor != c.actor then Err(Conflict(scope.value))
      else if c.timestamp > claims[scope.value].timestamp then Ok(claims[scope.value := Holder(c.actor, c.timestamp)])
      else Ok(claims)
  }

  function LoadClaims(raw: seq<RawClaim>, canon: Canon): Result<Claims, LoadError> {
    if raw == [] then Ok(map[])
    else
      match LoadClaims(raw[..|raw| - 1], canon)
      case Err(e) => Err(e)
      case Ok(claims) => AddClaim(claims, raw[|raw| - 1], canon)
  }

  method Load(raw: seq<RawClaim>, canon: Canon) returns (r: Result<Claims, LoadError>)
    ensures r == LoadClaims(raw, canon)
  {
    var claims: Claims := map[];
    for i := 0 to |raw|
      invariant LoadClaims(raw[..i], canon) == Ok(claims)
    {
      assert raw[..i + 1][..i] == raw[..i];
      var c := raw[i];
      if c.Malformed? {
        continue;
      }
      var scope := canon(c.scope);
      if scope.None? {
        FirstErrorStays(raw, i + 1, canon);
        return Err(EmptyScope);
      }
      if scope.value !in claims {
        claims := claims[scope.value := Holder(c.actor, c.timestamp)];
        continue;
      }
      if claims[scope.value].actor != c.actor {
        FirstErrorStays(raw, i + 1, canon);
        return Err(Conflict(scope.value));
      }
      if c.timestamp > claims[scope.value].timestamp {
        claims := claims[scope.value := Holder(c.actor, c.timestamp)];
      }
    }
    assert raw[..|raw|] == raw;
    return Ok(claims);
  }

  lemma {:induction false} FirstErrorStays(raw: seq<RawClaim>, n: nat, canon: Canon)
    requires n <= |raw| && LoadClaims(raw[..n], canon).Err?
    ensures LoadClaims(raw, canon) == LoadClaims(raw[..n], canon)
    decreases |raw|
  {
    if n == |raw| {
      assert raw[..n] == raw;
    } else {
      assert raw[..|raw| - 1][..n] == raw[..n];
      FirstErrorStays(raw[..|raw| - 1], n, canon);
    }
  }

  predicate Names(c: RawClaim, scope: string, canon: Canon) {
    c.RawClaim? && canon(c.scope) == Some(scope)
  }

  /** `claims` holds, for each scope named in `raw`, the one actor that names it and its newest time. */
  ghost predicate Digest(claims: Claims, raw: seq<RawClaim>, canon: Canon) {
    && (forall i, scope :: 0 <= i < |raw| && Names(raw[i], scope, canon) ==>
          scope in claims && claims[scope].actor == raw[i].actor && raw[i].timestamp <= claims[scope].timestamp)
    && (forall scope :: scope in claims ==>
          exists i :: 0 <= i < |raw| && Names(raw[i], scope, canon) && raw[i].timestamp == claims[scope].timestamp)
  }

  /** No claim lacks a name, and no scope is claimed by two actors. */
  ghost predicate Loadable(raw: seq<RawClaim>, canon: Canon) {
    && (forall i :: 0 <= i < |raw| && raw[i].RawClaim? ==> canon(raw[i].scope).Some?)
    && (forall i, j, scope :: 0 <= i < |raw| && 0 <= j < |raw| && Names(raw[i], scope, canon) && Names(raw[j], scope, canon) ==>
          raw[i].actor == raw[j].actor)
  }

  /** A claim list loads exactly when it is consistent, and then to its digest. */
  lemma {:induction false} LoadIffConsistent(raw: seq<RawClaim>, canon: Canon)
    ensures LoadClaims(raw, canon).Ok? <==> Loadable(raw, canon)
    ensures LoadClaims(raw, canon).Ok? ==> Digest(LoadClaims(raw, canon).value, raw, canon)
  {
    if raw == [] {
    } else {
      var init, last := raw[..|raw| - 1], raw[|raw| - 1];
      LoadIffConsistent(init, canon);
      assert raw == init + [last];
      var before := LoadClaims(init, canon);
      if before.Ok? {
        AddToDigest(before.value, init, last, canon);
      } else {
        LoadableInit(init, last, canon);
      }
    }
  }

  /** Claim `n` is the first that cannot be loaded, and the error says why: it has no name, or another
      actor was listed before for the scope it names. */
  ghost predicate Offends(raw: seq<RawClaim>, n: nat, e: LoadError, canon: Canon)
    requires n < |raw|
  {
    && raw[n].RawClaim?
    && if canon(raw[n].scope).None? then e == EmptyScope
       else e == Conflict(canon(raw[n].scope).value)
            && exists i :: 0 <= i < n && Names(raw[i], e.scope, canon) && raw[i].actor != raw[n].actor
  }

  /** A list that does not load is refused for its first claim that does not fit those before it. */
  lemma {:induction false} LoadErrorIsFirst(raw: seq<RawClaim>, canon: Canon) returns (n: nat)
    requires LoadClaims(raw, canon).Err?
    ensures n < |raw| && Loadable(raw[..n], canon) && Offends(raw, n, LoadClaims(raw, canon).error, canon)
  {
    var init, last := raw[..|raw| - 1], raw[|raw| - 1];
    var before := LoadClaims(init, canon);
    if before.Err? {
      n := LoadErrorIsFirst(init, canon);
      assert raw[..n] == init[..n] && raw[n] == init[n];
    } else {
      n := |init|;
      LoadIffConsistent(init, canon);
      if canon(last.scope).Some? {
        var scope := canon(last.scope).value;
        var i :| 0 <= i < |init| && Names(init[i], scope, canon) && init[i].timestamp == before.value[scope].timestamp;
        assert Names(raw[i], scope, canon) && raw[i].actor != last.actor;
      }
    }
  }

  lemma LoadableInit(init: seq<RawClaim>, last: RawClaim, canon: Canon)
    requires !Loadable(init, canon)
    ensures !Loadable(init + [last], canon)
  {
    var raw := init + [last];
    if Loadable(raw, canon) {
      forall i | 0 <= i < |init| && init[i].RawClaim? ensures canon(init[i].scope).Some? {
        assert raw[i] == init[i];
      }
      forall i, j, scope | 0 <= i < |init| && 0 <= j < |init| && Names(init[i], scope, canon) && Names(init[j], scope, canon)
        ensures init[i].actor == init[j].actor
      {
        assert raw[i] == init[i] && raw[j] == init[j];
      }
    }
  }

  lemma AddToDigest(claims: Claims, init: seq<RawClaim>, last: RawClaim, canon: Canon)
    requires Loadable(init, canon) && Digest(claims, init, canon)
    ensures var raw := init + [last];
            var r := AddClaim(claims, last, canon);
            (r.Ok? <==> Loadable(raw, canon)) && (r.Ok? ==> Digest(r.value, raw, canon))
  {
    var raw := init + [last];
    var r := AddClaim(claims, last, canon);
    if r.Ok? {
      DigestGrows(claims, init, last, canon);
    } else {
      assert raw[|init|] == last;
      if r.error.Conflict? {
        var scope := canon(last.scope).value;
        var i :| 0 <= i < |init| && Names(init[i], scope, canon) && init[i].timestamp == claims[scope].timestamp;
        assert raw[i] == init[i] && Names(raw[i], scope, canon) && Names(raw[|init|], scope, canon);
      }
    }
  }

  lemma DigestGrows(claims: Claims, init: seq<RawClaim>, last: RawClaim, canon: Canon)
    requires Loadable(init, canon) && Digest(claims, init, canon) && AddClaim(claims, last, canon).Ok?
    ensures Loadable(init + [last], canon) && Digest(AddClaim(claims, last, canon).value, init + [last], canon)
  {
    var raw := init + [last];
    var after := AddClaim(claims, last, canon).value;
    forall i, scope | 0 <= i < |raw| && Names(raw[i], scope, canon)
      ensures scope in after && after[scope].actor == raw[i].actor && raw[i].timestamp <= after[scope].timestamp
    {
      if i < |init| {
        assert raw[i] == init[i];
      }
    }
    forall scope | scope in after
      ensures exists i :: 0 <= i < |raw| && Names(raw[i], scope, canon) && raw[i].timestamp == after[scope].timestamp
    {
      if Names(last, scope, canon) && last.timestamp == after[scope].timestamp {
        assert raw[|init|] == last;
      } else {
        var i :| 0 <= i < |init| && Names(init[i], scope, canon) && init[i].timestamp == claims[scope].timestamp;
        assert raw[i] == init[i];
      }
    }
    forall i | 0 <= i < |raw| && raw[i].RawClaim? ensures canon(raw[i].scope).Some? {
      if i < |init| {
        assert raw[i] == init[i];
      }
    }
  }
}
