/** A refresh whose answer was lost is asked for again: exactly when it gets the same answer, over
    any run of any number of processes in between. */
module RefreshRetries {
  import opened Basics
  import opened RefreshTokens
  import opened RefreshRuns
  import opened RefreshTheorems
  import opened RefreshAccess

  /** A rotation that happened: in which process and when, the token it superseded, and the token
      and the two records it left. */
  datatype Past = Past(process: nat, at: int, key: Digest, child: Digest, token: Token, parent: TokenRecord, born: TokenRecord)

  /** What a rotation leaves. */
  ghost predicate Sane(r: Past) {
    && r.key != r.child && r.child == Sha256(r.token)
    && r.parent.supersededAt == Some(r.at) && r.parent.successor == Some(r.child) && r.parent.expiresAt == r.at + REFRESH_TTL_MS
    && r.born.supersededAt.None? && r.born.expiresAt == r.at + REFRESH_TTL_MS
    && r.born.clientId == r.parent.clientId && r.born.scopes == r.parent.scopes
  }

  function Entry(r: Past): RecentSuccessor {
    RecentSuccessor(r.token, r.child, r.at)
  }

  /** The superseded token, if stored, is as the rotation left it, and so is its successor until it
      is superseded itself. */
  ghost predicate TableFollows(t: map<Digest, TokenRecord>, r: Past) {
    && (r.key in t ==> t[r.key] == r.parent)
    && (r.child in t ==> t[r.child].clientId == r.parent.clientId && (t[r.child].supersededAt.None? ==> t[r.child] == r.born))
  }

  /** A cached answer for this successor is the rotation's. */
  ghost predicate CacheFollows(recent: map<Digest, RecentSuccessor>, r: Past) {
    r.key in recent && recent[r.key].digest == r.child ==> recent[r.key] == Entry(r)
  }

  /** What still holds of the rotation; `restarted` says whether its process has forgotten it. */
  ghost predicate Follows(v: World, r: Past, restarted: bool) {
    && TableFollows(v.tables.refresh, r)
    && (forall p :: CacheFollows(RecentOf(v, p), r))
    && (forall p :: r.key in RecentOf(v, p) && RecentOf(v, p)[r.key].digest == r.child ==> p == r.process && !restarted)
    && (!restarted && v.now - r.at <= REFRESH_REUSE_GRACE_MS && r.key in v.tables.refresh ==>
          r.key in RecentOf(v, r.process) && RecentOf(v, r.process)[r.key] == Entry(r))
    && r.key.token < v.next && r.child.token < v.next && r.parent.clientId !in v.confidential && r.at <= v.now
  }

  /** Both records are stored as the rotation left them. */
  ghost predicate PairStored(t: map<Digest, TokenRecord>, r: Past) {
    r.key in t && t[r.key] == r.parent && r.child in t && t[r.child] == r.born
  }

  // ----- what an operation does to it -----

  /** Between loading and storing, an operation adds nothing to what is left of the rotation. */
  ghost predicate Moves(b: Memory, m: Memory, r: Past) {
    && TableFollows(m.tables.refresh, r)
    && (r.key in m.tables.refresh ==> r.key in b.tables.refresh)
    && (r.key in m.recent ==> r.key in b.recent && m.recent[r.key] == b.recent[r.key])
    && (r.key in b.recent && r.key in m.tables.refresh ==> r.key in m.recent)
  }

  lemma PrunedFollows(v: World, process: nat, r: Past, restarted: bool)
    requires Follows(v, r, restarted)
    ensures TableFollows(Begin(v, process).tables.refresh, r)
  {
  }

  /** The other processes' caches stay, and this one's keeps the entry as long as it matters. */
  lemma CommitFollows(v: World, h: World, process: nat, m: Memory, r: Past, restarted: bool)
    requires Sane(r) && Follows(v, r, restarted) && Moves(Begin(v, process), m, r)
    requires h.recents == v.recents && h.now == v.now && h.next == v.next && h.confidential == v.confidential
    ensures Follows(Commit(h, process, m), r, restarted)
  {
    var c := Commit(h, process, m);
    forall p ensures p != process ==> RecentOf(c, p) == RecentOf(v, p) {
    }
    assert RecentOf(c, process) == Prune(m, h.now).recent;
    CacheAfter(v, process, m, r, restarted);
  }

  lemma CacheAfter(v: World, process: nat, m: Memory, r: Past, restarted: bool)
    requires Sane(r) && Follows(v, r, restarted) && Moves(Begin(v, process), m, r)
    ensures var recent := Prune(m, v.now).recent;
            && (r.key in recent ==> r.key in RecentOf(v, process) && recent[r.key] == RecentOf(v, process)[r.key])
            && (process == r.process && !restarted && v.now - r.at <= REFRESH_REUSE_GRACE_MS && r.key in Prune(m, v.now).tables.refresh ==>
                  r.key in recent && recent[r.key] == Entry(r))
  {
  }

  lemma RefreshMoves(b: Memory, q: RefreshRequest, now: int, drawn: Draw, r: Past)
    requires Sane(r) && TableFollows(b.tables.refresh, r)
    requires r.key.token < drawn.refresh && r.child.token < drawn.refresh && (q.clientId == r.parent.clientId ==> q.publicClient)
    ensures Moves(b, Refresh(b, q, now, drawn).0, r)
  {
    var key := Sha256(q.token);
    if key in b.tables.refresh && b.tables.refresh[key].supersededAt.Some? {
      TrailFromKey(b.tables.refresh, key);
    }
  }

  lemma TrailFromKey(t: map<Digest, TokenRecord>, key: Digest)
    ensures key in Trail(t, key)
  {
  }

  lemma StepFollows(v: World, e: Event, r: Past, restarted: bool)
    requires Sane(r) && Follows(v, r, restarted)
    ensures Follows(Step(v, e), r, restarted || e == Restart(r.process))
  {
    match e
    case Tick(elapsed) => assert forall p :: RecentOf(Step(v, e), p) == RecentOf(v, p);
    case Restart(process) => RestartFollows(v, process, r, restarted);
    case Authorize(process, _, _, _, _) =>
      AuthorizeAdds(Begin(v, process), e, v.next, v.now);
      CommitFollows(v, v, process, AfterAuthorize(v, e), r, restarted);
    case RedeemCode(_, _, _, _, _) => RedeemFollows(v, e, r, restarted);
    case RefreshToken(_, _, _, _, _) => RefreshFollows(v, e, r, restarted);
    case RevokeToken(process, token) => CommitFollows(v, v, process, Revoke(Begin(v, process), token), r, restarted);
  }

  lemma RestartFollows(v: World, process: nat, r: Past, restarted: bool)
    requires Follows(v, r, restarted)
    ensures Follows(Step(v, Restart(process)), r, restarted || process == r.process)
  {
    var after := Step(v, Restart(process));
    assert RecentOf(after, process) == map[];
    assert forall p :: p != process ==> RecentOf(after, p) == RecentOf(v, p);
  }

  lemma RedeemFollows(v: World, e: Event, r: Past, restarted: bool)
    requires Sane(r) && Follows(v, r, restarted) && e.RedeemCode?
    ensures Follows(Step(v, e), r, restarted)
  {
    var (m, a) := RedeemOutcome(v, e);
    if a.Ok? {
      RedeemAdds(Begin(v, e.process), e, v.now, Drawn(v));
      var code := Begin(v, e.process).tables.codes[Sha256(e.code)];
      var grant := Grant(code.clientId, code.scopes, code.resource);
      StepOfRedeem(v, e, grant);
      CommitFollows(v, Founded(v, Sha256(a.value.refreshToken), grant), e.process, m, r, restarted);
    } else {
      CommitFollows(v, v, e.process, m, r, restarted);
    }
  }

  lemma RefreshFollows(v: World, e: Event, r: Past, restarted: bool)
    requires Sane(r) && Follows(v, r, restarted) && e.RefreshToken?
    ensures Follows(Step(v, e), r, restarted)
  {
    var (m, a) := RefreshOutcome(v, e);
    RefreshMoves(Begin(v, e.process), RequestOf(v, e), v.now, Drawn(v), r);
    if a.Ok? && a.value.refreshToken == Drawn(v).refresh {
      StepWithRotation(v, e);
      CommitFollows(v, Extended(v, Sha256(e.token), Sha256(Drawn(v).refresh)), e.process, m, r, restarted);
    } else {
      StepWithoutRotation(v, e);
      CommitFollows(v, v, e.process, m, r, restarted);
    }
  }

  lemma {:induction false} RunFollows(u: World, events: seq<Event>, r: Past)
    requires Sane(r) && Follows(u, r, false)
    ensures Follows(Run(u, events), r, Restart(r.process) in events)
    decreases |events|
  {
    if events == [] {
    } else {
      var n := |events| - 1;
      RunFollows(u, events[..n], r);
      StepFollows(Run(u, events[..n]), events[n], r, Restart(r.process) in events[..n]);
      assert events == events[..n] + [events[n]];
    }
  }

  // ----- the rotation itself -----

  /** Cached answers are tokens that were drawn. */
  ghost predicate CachesDrawn(w: World) {
    forall p, k :: k in RecentOf(w, p) ==> RecentOf(w, p)[k].digest.token < w.next
  }

  lemma RefreshCaches(b: Memory, q: RefreshRequest, now: int, drawn: Draw)
    ensures var m := Refresh(b, q, now, drawn).0;
            forall k :: k in m.recent ==> (k in b.recent && m.recent[k] == b.recent[k]) || m.recent[k].digest == Sha256(drawn.refresh)
  {
  }

  lemma CommitCachesDrawn(w: World, h: World, process: nat, m: Memory)
    requires CachesDrawn(w) && h.recents == w.recents && h.next == w.next
    requires forall k :: k in m.recent ==>
               (k in Begin(w, process).recent && m.recent[k] == Begin(w, process).recent[k]) || m.recent[k].digest == Sha256(Drawn(w).refresh)
    ensures CachesDrawn(Commit(h, process, m))
  {
    var c := Commit(h, process, m);
    forall p, k | k in RecentOf(c, p) ensures RecentOf(c, p)[k].digest.token < c.next {
      if p == process {
        assert k in m.recent && RecentOf(c, p)[k] == m.recent[k];
        assert k in Begin(w, process).recent ==> k in RecentOf(w, process) && Begin(w, process).recent[k] == RecentOf(w, process)[k];
      } else {
        assert RecentOf(c, p) == RecentOf(w, p);
      }
    }
  }

  lemma StepCachesDrawn(w: World, e: Event)
    requires CachesDrawn(w)
    ensures CachesDrawn(Step(w, e))
  {
    match e
    case Tick(_) => assert forall p :: RecentOf(Step(w, e), p) == RecentOf(w, p);
    case Restart(process) => assert forall p :: RecentOf(Step(w, e), p) == if p == process then map[] else RecentOf(w, p);
    case Authorize(process, _, _, _, _) =>
      AuthorizeAdds(Begin(w, process), e, w.next, w.now);
      CommitCachesDrawn(w, w, process, AfterAuthorize(w, e));
    case RedeemCode(process, _, code, _, _) =>
      var (m, a) := RedeemOutcome(w, e);
      if a.Ok? {
        var rec := Begin(w, process).tables.codes[Sha256(code)];
        var grant := Grant(rec.clientId, rec.scopes, rec.resource);
        StepOfRedeem(w, e, grant);
        CommitCachesDrawn(w, Founded(w, Sha256(a.value.refreshToken), grant), process, m);
      } else {
        CommitCachesDrawn(w, w, process, m);
      }
    case RefreshToken(process, _, token, _, _) =>
      var (m, a) := RefreshOutcome(w, e);
      RefreshCaches(Begin(w, process), RequestOf(w, e), w.now, Drawn(w));
      if a.Ok? && a.value.refreshToken == Drawn(w).refresh {
        StepWithRotation(w, e);
        CommitCachesDrawn(w, Extended(w, Sha256(token), Sha256(Drawn(w).refresh)), process, m);
      } else {
        StepWithoutRotation(w, e);
        CommitCachesDrawn(w, w, process, m);
      }
    case RevokeToken(process, token) => CommitCachesDrawn(w, w, process, Revoke(Begin(w, process), token));
  }

  lemma {:induction false} RunCachesDrawn(confidential: set<string>, events: seq<Event>)
    ensures CachesDrawn(Run(Init(confidential), events))
    decreases |events|
  {
    if events == [] {
    } else {
      RunCachesDrawn(confidential, events[..|events| - 1]);
      StepCachesDrawn(Run(Init(confidential), events[..|events| - 1]), events[|events| - 1]);
    }
  }

  /** The request is answered with a token drawn for it: the one presented is superseded. */
  ghost predicate RotatesAt(w: World, e: Event) {
    e.RefreshToken? && RefreshOutcome(w, e).1.Ok? && RefreshOutcome(w, e).1.value.refreshToken == Drawn(w).refresh
  }

  function PastOf(w: World, e: Event): Past
    requires e.RefreshToken? && RefreshOutcome(w, e).1.Ok?
    requires Sha256(e.token) in RefreshOutcome(w, e).0.tables.refresh
    requires Sha256(RefreshOutcome(w, e).1.value.refreshToken) in RefreshOutcome(w, e).0.tables.refresh
  {
    var (m, a) := RefreshOutcome(w, e);
    var child := Sha256(a.value.refreshToken);
    Past(e.process, w.now, Sha256(e.token), child, a.value.refreshToken, m.tables.refresh[Sha256(e.token)], m.tables.refresh[child])
  }

  /** Only a rotation answers with a token drawn for it. */
  lemma DrawnIsRotated(w: World, e: Event)
    requires Inv(w) && RotatesAt(w, e)
    ensures Rotates(Begin(w, e.process), RequestOf(w, e), w.now, Drawn(w), RefreshOutcome(w, e).1.value.scopes)
  {
    var b, key := Begin(w, e.process), Sha256(e.token);
    BeginFacts(w, e.process);
    RefreshCases(b, RequestOf(w, e), w.now, Drawn(w));
    assert key in b.tables.refresh && key in w.tables.refresh && b.tables.refresh[key] == w.tables.refresh[key];
    assert RecordOk(w, key, w.tables.refresh[key]);
  }

  lemma RotationInMemory(b: Memory, q: RefreshRequest, now: int, drawn: Draw)
    requires Refresh(b, q, now, drawn).1.Ok?
    requires Rotates(b, q, now, drawn, Refresh(b, q, now, drawn).1.value.scopes)
    ensures var key, next := Sha256(q.token), Refresh(b, q, now, drawn).1.value.scopes;
            && NextScopes(q.scopes, next) == Ok(next)
            && (q.resource.Some? ==> q.resource.value == b.tables.refresh[key].resource)
  {
  }

  /** What the rotation leaves is as promised. */
  lemma RotationLeaves(b: Memory, q: RefreshRequest, next: seq<string>, now: int, drawn: Draw, r: Past)
    requires Sha256(q.token) in b.tables.refresh && b.tables.refresh[Sha256(q.token)].clientId == q.clientId && q.token < drawn.refresh
    requires var m := Rotate(b, q, next, now, drawn).0;
             var key, child := Sha256(q.token), Sha256(drawn.refresh);
             && key in m.tables.refresh && child in m.tables.refresh
             && r == Past(r.process, now, key, child, drawn.refresh, m.tables.refresh[key], m.tables.refresh[child])
    ensures Sane(r) && r.parent.scopes == next && r.parent.clientId == q.clientId
    ensures r.parent.resource == b.tables.refresh[Sha256(q.token)].resource
    ensures Rotate(b, q, next, now, drawn).0.recent == b.recent[r.key := Entry(r)]
  {
  }

  lemma StepOfRotation(w: World, e: Event, m: Memory, pair: TokenPair)
    requires e.RefreshToken? && RefreshOutcome(w, e) == (m, Ok(pair)) && pair.refreshToken == Drawn(w).refresh
    ensures Step(w, e).tables == Prune(m, w.now).tables && Step(w, e).recents == w.recents[e.process := Prune(m, w.now).recent]
    ensures Step(w, e).now == w.now && Step(w, e).next == w.next + 2 && Step(w, e).confidential == w.confidential
  {
  }

  /** The rotation is what the run that follows it starts from. */
  lemma RotationBegins(w: World, e: Event) returns (r: Past)
    requires Inv(w) && CachesDrawn(w) && RotatesAt(w, e)
    ensures Sane(r) && Follows(Step(w, e), r, false)
    ensures r.process == e.process && r.at == w.now && r.key == Sha256(e.token) && r.token == RefreshOutcome(w, e).1.value.refreshToken
    ensures r.parent.scopes == RefreshOutcome(w, e).1.value.scopes && r.parent.clientId == e.clientId
    ensures NextScopes(e.refreshScopes, r.parent.scopes) == Ok(r.parent.scopes)
    ensures e.refreshResource.Some? ==> e.refreshResource.value == r.parent.resource
    ensures PairStored(Step(w, e).tables.refresh, r)
  {
    var b, q, key := Begin(w, e.process), RequestOf(w, e), Sha256(e.token);
    var (m, a) := RefreshOutcome(w, e);
    DrawnIsRotated(w, e);
    RotationInMemory(b, q, w.now, Drawn(w));
    assert e.token < w.next by {
      assert RecordOk(w, key, w.tables.refresh[key]);
    }
    r := PastOf(w, e);
    RotationLeaves(b, q, a.value.scopes, w.now, Drawn(w), r);
    StepOfRotation(w, e, m, a.value);
    FirstFollows(w, Step(w, e), e.process, m, r);
  }

  lemma FirstFollows(w: World, u: World, process: nat, m: Memory, r: Past)
    requires Sane(r) && CachesDrawn(w) && r.process == process && r.at == w.now && r.child == Sha256(Drawn(w).refresh) && r.key.token < w.next
    requires u.tables == Prune(m, w.now).tables && u.recents == w.recents[process := Prune(m, w.now).recent]
    requires u.now == w.now && u.next == w.next + 2 && r.parent.clientId !in u.confidential
    requires r.key in m.tables.refresh && m.tables.refresh[r.key] == r.parent
    requires r.child in m.tables.refresh && m.tables.refresh[r.child] == r.born && r.key in m.recent && m.recent[r.key] == Entry(r)
    ensures Follows(u, r, false) && PairStored(u.tables.refresh, r)
  {
    assert RecentOf(u, process) == Prune(m, w.now).recent;
    forall p | p != process ensures RecentOf(u, p) == RecentOf(w, p) {
    }
  }

  // ----- the retry -----

  /** What the same token gets when it is presented again. */
  ghost predicate AnswersAgain(v: World, q: Event, r: Past, restarted: bool)
    requires q.RefreshToken?
  {
    && q.process == r.process && !restarted && v.now - r.at <= REFRESH_REUSE_GRACE_MS
    && r.key in v.tables.refresh && r.child in v.tables.refresh && v.tables.refresh[r.child].supersededAt.None?
    && q.clientId == r.parent.clientId && (q.refreshResource.Some? ==> q.refreshResource.value == r.parent.resource)
    && NextScopes(q.refreshScopes, r.parent.scopes) == Ok(r.parent.scopes)
  }

  lemma RetryIff(v: World, q: Event, r: Past, restarted: bool)
    requires Sane(r) && Follows(v, r, restarted) && q.RefreshToken? && Sha256(q.token) == r.key
    ensures var a := RefreshOutcome(v, q).1;
            && (a.Ok? <==> AnswersAgain(v, q, r, restarted))
            && (a.Ok? ==> a.value.refreshToken == r.token && a.value.scopes == r.parent.scopes)
  {
    var b := Begin(v, q.process);
    assert v.now - r.at <= REFRESH_REUSE_GRACE_MS && r.key in v.tables.refresh ==> r.key in b.tables.refresh && b.tables.refresh[r.key] == r.parent;
    RetryInTable(b, RequestOf(v, q), v.now, Drawn(v), r);
    if v.now - r.at <= REFRESH_REUSE_GRACE_MS && r.key in v.tables.refresh {
      CachedIff(v, q.process, r, restarted);
      ChildStoredIff(v, q.process, r);
    }
  }

  /** The process has the answer exactly if it is the one that gave it and has not restarted. */
  lemma CachedIff(v: World, process: nat, r: Past, restarted: bool)
    requires Sane(r) && Follows(v, r, restarted) && v.now - r.at <= REFRESH_REUSE_GRACE_MS && r.key in v.tables.refresh
    ensures var recent := Begin(v, process).recent;
            && (r.key in recent && recent[r.key].digest == r.child <==> process == r.process && !restarted)
            && (r.key in recent && recent[r.key].digest == r.child ==> recent[r.key] == Entry(r))
  {
  }

  lemma ChildStoredIff(v: World, process: nat, r: Past)
    requires Sane(r) && TableFollows(v.tables.refresh, r) && v.now - r.at <= REFRESH_REUSE_GRACE_MS
    ensures var t := Begin(v, process).tables.refresh;
            r.child in t && t[r.child].supersededAt.None? <==> r.child in v.tables.refresh && v.tables.refresh[r.child].supersededAt.None?
  {
  }

  /** The retry on the loaded tables. */
  lemma RetryInTable(b: Memory, q: RefreshRequest, now: int, drawn: Draw, r: Past)
    requires Sane(r) && TableFollows(b.tables.refresh, r) && CacheFollows(b.recent, r) && Sha256(q.token) == r.key
    requires q.clientId == r.parent.clientId ==> q.publicClient
    ensures var a := Refresh(b, q, now, drawn).1;
            && (a.Ok? <==>
                && r.key in b.tables.refresh && now < r.parent.expiresAt && now - r.at <= REFRESH_REUSE_GRACE_MS
                && r.child in b.tables.refresh && b.tables.refresh[r.child].supersededAt.None?
                && r.key in b.recent && b.recent[r.key].digest == r.child
                && q.clientId == r.parent.clientId && (q.resource.Some? ==> q.resource.value == r.parent.resource)
                && NextScopes(q.scopes, r.parent.scopes) == Ok(r.parent.scopes))
            && (a.Ok? ==> a.value.refreshToken == r.token && a.value.scopes == r.parent.scopes)
  {
  }

  lemma {:induction false} RunKeepsInv(u: World, events: seq<Event>)
    requires Inv(u)
    ensures Inv(Run(u, events))
    decreases |events|
  {
    if events == [] {
    } else {
      RunKeepsInv(u, events[..|events| - 1]);
      StepInv(Run(u, events[..|events| - 1]), events[|events| - 1]);
    }
  }

  /** Whatever lies between a rotation and a retry: what the rotation was, and what is left of it. */
  lemma RotationInRun(confidential: set<string>, events: seq<Event>, e: Event, between: seq<Event>) returns (r: Past)
    requires RotatesAt(Run(Init(confidential), events), e)
    ensures var w := Run(Init(confidential), events);
            var v, first := Run(Step(w, e), between), RefreshOutcome(w, e).1.value;
            && Inv(v) && Sane(r) && Follows(v, r, Restart(e.process) in between)
            && r.process == e.process && r.at == w.now && r.key == Sha256(e.token) && r.token == first.refreshToken
            && r.parent.scopes == first.scopes && r.parent.clientId == e.clientId
            && NextScopes(e.refreshScopes, first.scopes) == Ok(first.scopes)
            && (e.refreshResource.Some? ==> e.refreshResource.value == r.parent.resource)
            && Inv(Step(w, e)) && PairStored(Step(w, e).tables.refresh, r)
  {
    var w := Run(Init(confidential), events);
    RunInv(confidential, events);
    RunCachesDrawn(confidential, events);
    r := RotationBegins(w, e);
    RunFollows(Step(w, e), between, r);
    StepInv(w, e);
    RunKeepsInv(Step(w, e), between);
  }

  /** A refresh token that was rotated is presented again, after any run of any processes. It is
      answered exactly when the process that rotated it is asked, has not restarted and is asked
      within the grace window, both tokens are still stored and the new one has not been used, and
      the request is the client's own for the same resource and scopes. The answer is the same
      refresh token with the same scopes, and no refresh record is added or changed. */
  lemma LostAnswerIsRepeatedIff(confidential: set<string>, events: seq<Event>, e: Event, between: seq<Event>, again: Event)
    requires RotatesAt(Run(Init(confidential), events), e) && again.RefreshToken? && again.token == e.token
    ensures var w := Run(Init(confidential), events);
            var v, first := Run(Step(w, e), between), RefreshOutcome(w, e).1.value;
            var key, child, answer := Sha256(e.token), Sha256(first.refreshToken), RefreshOutcome(v, again).1;
            && (answer.Ok? <==>
                && again.process == e.process && Restart(e.process) !in between && v.now - w.now <= REFRESH_REUSE_GRACE_MS
                && key in v.tables.refresh && child in v.tables.refresh && v.tables.refresh[child].supersededAt.None?
                && again.clientId == e.clientId
                && (again.refreshResource.Some? ==> again.refreshResource.value == v.tables.refresh[key].resource)
                && NextScopes(again.refreshScopes, first.scopes) == Ok(first.scopes))
            && (answer.Ok? ==>
                && answer.value.refreshToken == first.refreshToken && answer.value.scopes == first.scopes
                && Step(v, again).tables.refresh == Begin(v, again.process).tables.refresh)
  {
    var w := Run(Init(confidential), events);
    var v := Run(Step(w, e), between);
    var r := RotationInRun(confidential, events, e, between);
    RetryIff(v, again, r, Restart(e.process) in between);
    if RefreshOutcome(v, again).1.Ok? {
      AnsweredRetry(v, again, r, Restart(e.process) in between);
    }
  }

  lemma AnsweredRetry(v: World, again: Event, r: Past, restarted: bool)
    requires Inv(v) && Sane(r) && Follows(v, r, restarted) && again.RefreshToken? && Sha256(again.token) == r.key
    requires RefreshOutcome(v, again).1.Ok? && AnswersAgain(v, again, r, restarted)
    ensures Step(v, again).tables.refresh == Begin(v, again.process).tables.refresh
  {
    assert Begin(v, again.process).tables.refresh[r.key] == r.parent;
    RetryStep(v, again);
  }

  /** Asked by another process, or after the process has restarted, the same request is refused
      rather than branched; within the grace window nothing is revoked for it. */
  lemma LostAnswerAfterRestart(confidential: set<string>, events: seq<Event>, e: Event, between: seq<Event>, process: nat)
    requires RotatesAt(Run(Init(confidential), events), e)
    requires process != e.process || Restart(e.process) in between
    ensures var w := Run(Init(confidential), events);
            var v, again := Run(Step(w, e), between), RefreshToken(process, e.clientId, e.token, e.refreshScopes, e.refreshResource);
            && RefreshOutcome(v, again).1 == Err(InvalidGrant)
            && (v.now - w.now <= REFRESH_REUSE_GRACE_MS ==> Step(v, again).tables.refresh == Begin(v, process).tables.refresh)
  {
    var w := Run(Init(confidential), events);
    var v, again := Run(Step(w, e), between), RefreshToken(process, e.clientId, e.token, e.refreshScopes, e.refreshResource);
    var r := RotationInRun(confidential, events, e, between);
    RetryIff(v, again, r, Restart(e.process) in between);
    var b := Begin(v, process);
    RefusedRetry(b, RequestOf(v, again), v.now, Drawn(v), r);
    StepWithoutRotation(v, again);
    CommitKeeps(v, v, process, RefreshOutcome(v, again).0);
  }

  lemma RefusedRetry(b: Memory, q: RefreshRequest, now: int, drawn: Draw, r: Past)
    requires Sane(r) && TableFollows(b.tables.refresh, r) && Sha256(q.token) == r.key && Refresh(b, q, now, drawn).1.Err?
    requires q.clientId == r.parent.clientId && q.publicClient && NextScopes(q.scopes, r.parent.scopes) == Ok(r.parent.scopes)
    requires q.resource.Some? ==> q.resource.value == r.parent.resource
    requires r.child in b.tables.refresh && b.tables.refresh[r.child].supersededAt.None? ==> !(r.key in b.recent && b.recent[r.key].digest == r.child)
    ensures Refresh(b, q, now, drawn).1 == Err(InvalidGrant)
    ensures Shrunk(Refresh(b, q, now, drawn).0.tables.refresh, b.tables.refresh)
    ensures now - r.at <= REFRESH_REUSE_GRACE_MS ==> Refresh(b, q, now, drawn).0 == b
  {
  }

  // ----- when nobody touches the family -----

  /** The event presents no token of the family, neither for a refresh nor to be revoked. */
  ghost predicate Spares(v: World, e: Event, key: Digest) {
    e.RefreshToken? || e.RevokeToken? ==> !SameFamily(v, Sha256(e.token), key)
  }

  ghost predicate RunSpares(u: World, events: seq<Event>, key: Digest) {
    forall i :: 0 <= i < |events| ==> Spares(Run(u, events[..i]), events[i], key)
  }

  lemma PairIsFamily(v: World, r: Past)
    requires Inv(v) && Sane(r) && PairStored(v.tables.refresh, r)
    ensures SameFamily(v, r.key, r.key) && SameFamily(v, r.child, r.key)
  {
    assert RecordOk(v, r.key, v.tables.refresh[r.key]);
  }

  lemma PruneKeepsPair(m: Memory, now: int, r: Past)
    requires Sane(r) && PairStored(m.tables.refresh, r) && now - r.at <= REFRESH_REUSE_GRACE_MS
    ensures PairStored(Prune(m, now).tables.refresh, r)
  {
  }

  lemma EffectKeepsPair(l: World, v: World, key: Digest, effect: Effect, r: Past)
    requires Inv(l) && EffectIs(l, v, key, effect) && Sane(r) && PairStored(l.tables.refresh, r) && !SameFamily(l, key, r.key)
    ensures PairStored(v.tables.refresh, r)
  {
    PairIsFamily(l, r);
    KeysPlaced(l);
    match effect
    case Rotation(child, next) => RotatePlaced(l, v, key, child, next);
    case Renewal(_) =>
    case Silence =>
      if v.tables.refresh != l.tables.refresh {
        TrailIsUnbroken(l, l.tables.refresh, key, r.key);
        TrailIsUnbroken(l, l.tables.refresh, key, r.child);
      }
  }

  lemma RefreshKeepsPair(v: World, e: Event, r: Past)
    requires Inv(v) && Sane(r) && PairStored(v.tables.refresh, r) && v.now - r.at <= REFRESH_REUSE_GRACE_MS
    requires e.RefreshToken? && Spares(v, e, r.key)
    ensures PairStored(Step(v, e).tables.refresh, r)
  {
    var effect, h, m := RefreshEffect(v, e);
    LoadedInv(v, e.process);
    PruneKeepsPair(Memory(v.tables, RecentOf(v, e.process)), v.now, r);
    EffectKeepsPair(Loaded(v, e.process), Applied(h, e.process, m), Sha256(e.token), effect, r);
    PruneKeepsPair(m, v.now, r);
  }

  lemma StepKeepsPair(v: World, e: Event, r: Past)
    requires Inv(v) && Sane(r) && PairStored(v.tables.refresh, r) && Step(v, e).now - r.at <= REFRESH_REUSE_GRACE_MS
    requires Spares(v, e, r.key)
    ensures PairStored(Step(v, e).tables.refresh, r)
  {
    match e
    case Tick(_) =>
    case Restart(_) =>
    case Authorize(_, _, _, _, _) => AuthorizeKeepsPair(v, e, r);
    case RedeemCode(_, _, _, _, _) => RedeemKeepsPair(v, e, r);
    case RefreshToken(_, _, _, _, _) => RefreshKeepsPair(v, e, r);
    case RevokeToken(_, _) => RevokeKeepsPair(v, e, r);
  }

  lemma RevokeKeepsPair(v: World, e: Event, r: Past)
    requires Inv(v) && Sane(r) && PairStored(v.tables.refresh, r) && v.now - r.at <= REFRESH_REUSE_GRACE_MS
    requires e.RevokeToken? && Spares(v, e, r.key)
    ensures PairStored(Commit(v, e.process, Revoke(Begin(v, e.process), e.token)).tables.refresh, r)
  {
    assert Sha256(e.token) !in {r.key, r.child} by {
      PairIsFamily(v, r);
    }
    OperationKeepsPair(v, v, e.process, Revoke(Begin(v, e.process), e.token), r);
  }

  lemma AuthorizeKeepsPair(v: World, e: Event, r: Past)
    requires Sane(r) && PairStored(v.tables.refresh, r) && v.now - r.at <= REFRESH_REUSE_GRACE_MS && e.Authorize?
    ensures PairStored(Commit(v, e.process, AfterAuthorize(v, e)).tables.refresh, r)
  {
    AuthorizeAdds(Begin(v, e.process), e, v.next, v.now);
    OperationKeepsPair(v, v, e.process, AfterAuthorize(v, e), r);
  }

  lemma OperationKeepsPair(v: World, h: World, process: nat, m: Memory, r: Past)
    requires Sane(r) && PairStored(v.tables.refresh, r) && v.now - r.at <= REFRESH_REUSE_GRACE_MS && h.now == v.now
    requires forall k :: k in {r.key, r.child} && k in Begin(v, process).tables.refresh ==>
               k in m.tables.refresh && m.tables.refresh[k] == Begin(v, process).tables.refresh[k]
    ensures PairStored(Commit(h, process, m).tables.refresh, r)
  {
    PruneKeepsPair(Memory(v.tables, RecentOf(v, process)), v.now, r);
    PruneKeepsPair(m, v.now, r);
  }

  lemma RedeemTouches(v: World, e: Event, k: Digest)
    requires e.RedeemCode? && k in Begin(v, e.process).tables.refresh && k != Sha256(Drawn(v).refresh)
    ensures var m := RedeemOutcome(v, e).0; k in m.tables.refresh && m.tables.refresh[k] == Begin(v, e.process).tables.refresh[k]
  {
    if RedeemOutcome(v, e).1.Ok? {
      RedeemAdds(Begin(v, e.process), e, v.now, Drawn(v));
    }
  }

  lemma RedeemKeepsPair(v: World, e: Event, r: Past)
    requires Inv(v) && Sane(r) && PairStored(v.tables.refresh, r) && v.now - r.at <= REFRESH_REUSE_GRACE_MS && e.RedeemCode?
    ensures PairStored(Step(v, e).tables.refresh, r)
  {
    assert Sha256(Drawn(v).refresh) !in {r.key, r.child} by {
      KeysPlaced(v);
    }
    var m := RedeemOutcome(v, e).0;
    forall k | k in {r.key, r.child} && k in Begin(v, e.process).tables.refresh
      ensures k in m.tables.refresh && m.tables.refresh[k] == Begin(v, e.process).tables.refresh[k]
    {
      RedeemTouches(v, e, k);
    }
    var h := RedeemHistory(v, e);
    OperationKeepsPair(v, h, e.process, m, r);
  }

  lemma {:induction false} TimeGoesOn(u: World, events: seq<Event>)
    ensures u.now <= Run(u, events).now
    decreases |events|
  {
    if events == [] {
    } else {
      TimeGoesOn(u, events[..|events| - 1]);
    }
  }

  lemma {:induction false} RunKeepsPair(u: World, events: seq<Event>, r: Past)
    requires Inv(u) && Sane(r) && PairStored(u.tables.refresh, r) && RunSpares(u, events, r.key)
    requires Run(u, events).now - r.at <= REFRESH_REUSE_GRACE_MS
    ensures PairStored(Run(u, events).tables.refresh, r)
    decreases |events|
  {
    if events == [] {
    } else {
      var n := |events| - 1;
      var before := events[..n];
      TimeGoesOn(Run(u, before), [events[n]]);
      assert [events[n]][..0] == [] && Run(Run(u, before), [events[n]]) == Step(Run(u, before), events[n]);
      assert forall i :: 0 <= i < n ==> before[..i] == events[..i] && before[i] == events[i];
      RunKeepsPair(u, before, r);
      RunKeepsInv(u, before);
      assert Spares(Run(u, before), events[n], r.key);
      StepKeepsPair(Run(u, before), events[n], r);
    }
  }

  /** So a lost answer is repaired by asking again: in the same process, not restarted, within the
      grace window, and whatever any process does with the tokens of other families in between. */
  lemma LostAnswerIsRepeated(confidential: set<string>, events: seq<Event>, e: Event, between: seq<Event>)
    requires RotatesAt(Run(Init(confidential), events), e) && Restart(e.process) !in between
    requires var w := Run(Init(confidential), events);
             && Run(Step(w, e), between).now - w.now <= REFRESH_REUSE_GRACE_MS
             && RunSpares(Step(w, e), between, Sha256(e.token))
    ensures var w := Run(Init(confidential), events);
            var v, first := Run(Step(w, e), between), RefreshOutcome(w, e).1.value;
            var again := RefreshOutcome(v, e).1;
            && again.Ok? && again.value.refreshToken == first.refreshToken && again.value.scopes == first.scopes
            && Step(v, e).tables.refresh == Begin(v, e.process).tables.refresh
  {
    var w := Run(Init(confidential), events);
    var r := RotationInRun(confidential, events, e, between);
    assert PairStored(Run(Step(w, e), between).tables.refresh, r) by {
      RunKeepsPair(Step(w, e), between, r);
    }
    LostAnswerIsRepeatedIff(confidential, events, e, between, e);
  }
}
