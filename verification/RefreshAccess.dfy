/** What an answered refresh or code exchange puts into the tables, and how long an access token
    lives, over any run. */
module RefreshAccess {
  import opened Basics
  import opened RefreshTokens
  import opened RefreshRuns
  import opened RefreshTheorems

  /** What a pair answered at `now` is worth: the record of its access token. */
  function AccessOf(clientId: string, answer: TokenPair, resource: string, subject: string, now: int): TokenRecord {
    TokenRecord(clientId, answer.scopes, resource, subject, now + ACCESS_TTL_MS, None, None)
  }

  // ----- one operation on the loaded tables -----

  /** Whenever a refresh is answered, by rotation, renewal or retry, the access table gains exactly
      the answered access token, for the client, resource and subject of the presented token and the
      answered scopes; a refused one adds none. Codes stay. */
  lemma AnswerAddsAccess(b: Memory, q: RefreshRequest, now: int, drawn: Draw)
    ensures var (m, a) := Refresh(b, q, now, drawn);
            && m.tables.codes == b.tables.codes
            && (a.Err? ==> m.tables.access == b.tables.access)
            && (a.Ok? ==>
                  && a.value.accessToken == drawn.access && Sha256(q.token) in b.tables.refresh
                  && var rec := b.tables.refresh[Sha256(q.token)];
                     m.tables.access == b.tables.access[Sha256(a.value.accessToken) := AccessOf(q.clientId, a.value, rec.resource, rec.subject, now)])
  {
  }

  /** The refresh table of an answered refresh: a new token gets a record of its own and the presented
      one is superseded by it; the presented one answered again is renewed; any other answer changes nothing. */
  lemma AnswerRotates(b: Memory, q: RefreshRequest, now: int, drawn: Draw)
    requires q.token != drawn.refresh && Refresh(b, q, now, drawn).1.Ok?
    requires forall k :: k in b.recent ==> b.recent[k].token != drawn.refresh
    requires q.publicClient ==> forall k :: k in b.recent ==> b.recent[k].token != q.token
    ensures var (m, a) := Refresh(b, q, now, drawn);
            var key := Sha256(q.token);
            && key in b.tables.refresh
            && var rec := b.tables.refresh[key];
               m.tables.refresh ==
                 if a.value.refreshToken == drawn.refresh then
                   b.tables.refresh
                     [key := TokenRecord(rec.clientId, a.value.scopes, rec.resource, rec.subject, now + REFRESH_TTL_MS, Some(now), Some(Sha256(drawn.refresh)))]
                     [Sha256(drawn.refresh) := TokenRecord(q.clientId, a.value.scopes, rec.resource, rec.subject, now + REFRESH_TTL_MS, None, None)]
                 else if a.value.refreshToken == q.token then
                   b.tables.refresh[key := TokenRecord(rec.clientId, a.value.scopes, rec.resource, rec.subject, now + REFRESH_TTL_MS, None, None)]
                 else b.tables.refresh
  {
  }

  /** An exchanged code is gone, and both answered tokens are stored for its client, scopes and
      resource; a refused exchange changes nothing. */
  lemma RedeemAddsBoth(b: Memory, clientId: string, code: Token, redirectUri: Option<string>, resource: Option<string>,
                       subject: string, now: int, drawn: Draw)
    ensures var (m, a) := Redeem(b, clientId, code, redirectUri, resource, subject, now, drawn);
            && (a.Err? ==> m == b)
            && (a.Ok? <==>
                  && Sha256(code) in b.tables.codes
                  && var rec := b.tables.codes[Sha256(code)];
                     && rec.clientId == clientId && now < rec.expiresAt && (redirectUri.Some? ==> redirectUri.value == rec.redirectUri)
                     && (resource.Some? ==> resource.value == rec.resource))
            && (a.Ok? ==>
                  var rec := b.tables.codes[Sha256(code)];
                  && a.value == TokenPair(drawn.access, drawn.refresh, rec.scopes)
                  && m.tables.access == b.tables.access[Sha256(drawn.access) := AccessOf(clientId, a.value, rec.resource, subject, now)]
                  && m.tables.refresh == b.tables.refresh
                       [Sha256(drawn.refresh) := TokenRecord(clientId, rec.scopes, rec.resource, subject, now + REFRESH_TTL_MS, None, None)]
                  && (forall k :: k in m.tables.codes <==> k in b.tables.codes && k != Sha256(code))
                  && (forall k :: k in m.tables.codes ==> m.tables.codes[k] == b.tables.codes[k])
                  && m.recent == b.recent)
  {
  }

  /** A granted code is stored for a minute with the validated scopes; nothing else changes. */
  lemma AuthorizeAddsCode(b: Memory, clientId: string, redirectUri: string, scopes: seq<string>, resource: Option<string>,
                          expected: string, code: Token, now: int)
    ensures var (m, a) := RefreshTokens.Authorize(b, clientId, redirectUri, scopes, resource, expected, code, now);
            && (a.Ok? <==> (resource.Some? ==> resource.value == expected) && ValidateScopes(scopes).Ok?)
            && (a.Err? ==> m == b)
            && (a.Ok? ==>
                  && a.value == code
                  && m.tables.codes == b.tables.codes[Sha256(code) :=
                       CodeRecord(clientId, redirectUri, ValidateScopes(scopes).value, expected, now + CODE_TTL_MS)]
                  && m.tables.access == b.tables.access && m.tables.refresh == b.tables.refresh && m.recent == b.recent)
  {
  }

  /** Pruning drops exactly what has expired, and the cached answers whose grace is over or whose
      token is no longer stored. */
  lemma PrunedIff(m: Memory, now: int, k: Digest)
    ensures var p := Prune(m, now);
            && (k in p.tables.access <==> k in m.tables.access && now < m.tables.access[k].expiresAt)
            && (k in p.tables.access ==> p.tables.access[k] == m.tables.access[k])
            && (k in p.tables.refresh <==> k in m.tables.refresh && now < m.tables.refresh[k].expiresAt)
            && (k in p.tables.refresh ==> p.tables.refresh[k] == m.tables.refresh[k])
            && (k in p.tables.codes <==> k in m.tables.codes && now < m.tables.codes[k].expiresAt)
            && (k in p.tables.codes ==> p.tables.codes[k] == m.tables.codes[k])
            && (k in p.recent <==> k in m.recent && k in m.tables.refresh && now - m.recent[k].issuedAt <= REFRESH_REUSE_GRACE_MS)
            && (k in p.recent ==> p.recent[k] == m.recent[k])
  {
  }

  // ----- the life of an access token, over runs -----

  /** The pair an event is answered with, if it is answered with one. */
  function AnswerOf(w: World, e: Event): Option<TokenPair> {
    match e
    case RefreshToken(_, _, _, _, _) => if RefreshOutcome(w, e).1.Ok? then Some(RefreshOutcome(w, e).1.value) else None
    case RedeemCode(_, _, _, _, _) => if RedeemOutcome(w, e).1.Ok? then Some(RedeemOutcome(w, e).1.value) else None
    case _ => None
  }

  /** The resource and subject of what the event presents. */
  function Presented(w: World, e: Event): (string, string)
    requires AnswerOf(w, e).Some?
  {
    if e.RefreshToken? then
      var rec := Begin(w, e.process).tables.refresh[Sha256(e.token)];
      (rec.resource, rec.subject)
    else (Begin(w, e.process).tables.codes[Sha256(e.code)].resource, "owner")
  }

  /** The event acts on the store: it loads, prunes and writes it. */
  predicate Acts(e: Event) {
    !e.Tick? && !e.Restart?
  }

  /** `after` holds what had not expired in `w` and is not revoked, and the token that `e` answers. */
  ghost predicate AccessFollows(w: World, e: Event, after: map<Digest, TokenRecord>, k: Digest) {
    var answer := AnswerOf(w, e);
    var kept := k in w.tables.access && w.now < w.tables.access[k].expiresAt && !(e.RevokeToken? && k == Sha256(e.token));
    var added := answer.Some? && k == Sha256(answer.value.accessToken);
    && (k in after <==> kept || added)
    && (added ==> answer.value.accessToken == w.next
                  && after[k] == AccessOf(e.clientId, answer.value, Presented(w, e).0, Presented(w, e).1, w.now))
    && (kept && !added ==> after[k] == w.tables.access[k])
  }

  lemma CommitAccess(h: World, process: nat, m: Memory, k: Digest)
    ensures var after := Commit(h, process, m).tables.access;
            && (k in after <==> k in m.tables.access && h.now < m.tables.access[k].expiresAt)
            && (k in after ==> after[k] == m.tables.access[k])
  {
  }

  lemma RefreshAccessStep(w: World, e: Event, h: World, k: Digest)
    requires e.RefreshToken? && h.now == w.now
    ensures AccessFollows(w, e, Commit(h, e.process, RefreshOutcome(w, e).0).tables.access, k)
  {
    AnswerAddsAccess(Begin(w, e.process), RequestOf(w, e), w.now, Drawn(w));
    CommitAccess(h, e.process, RefreshOutcome(w, e).0, k);
  }

  lemma RedeemAccessStep(w: World, e: Event, h: World, k: Digest)
    requires e.RedeemCode? && h.now == w.now
    ensures AccessFollows(w, e, Commit(h, e.process, RedeemOutcome(w, e).0).tables.access, k)
  {
    RedeemAddsBoth(Begin(w, e.process), e.clientId, e.code, e.codeRedirect, e.codeResource, "owner", w.now, Drawn(w));
    CommitAccess(h, e.process, RedeemOutcome(w, e).0, k);
  }

  /** The access table after any event: what had not expired and is not revoked by it, and the token
      it answers, if it answers one. */
  lemma AccessAfterStep(w: World, e: Event, k: Digest)
    requires Acts(e)
    ensures AccessFollows(w, e, Step(w, e).tables.access, k)
  {
    match e
    case Authorize(process, _, _, _, _) =>
      AuthorizeAddsCode(Begin(w, process), e.clientId, e.redirectUri, e.scopes, e.resource, RESOURCE, w.next, w.now);
      CommitAccess(w, process, AfterAuthorize(w, e), k);
    case RevokeToken(process, token) => CommitAccess(w, process, Revoke(Begin(w, process), token), k);
    case RedeemCode(_, _, _, _, _) =>
      var h := RedeemHistory(w, e);
      RedeemAccessStep(w, e, h, k);
    case RefreshToken(_, _, _, _, _) =>
      var h := RefreshHistory(w, e);
      RefreshAccessStep(w, e, h, k);
  }

  lemma RedeemHistory(w: World, e: Event) returns (h: World)
    requires e.RedeemCode?
    ensures Step(w, e) == Commit(h, e.process, RedeemOutcome(w, e).0) && h.now == w.now
  {
    h := w;
    if RedeemOutcome(w, e).1.Ok? {
      var code := Begin(w, e.process).tables.codes[Sha256(e.code)];
      var grant := Grant(code.clientId, code.scopes, code.resource);
      h := Founded(w, Sha256(RedeemOutcome(w, e).1.value.refreshToken), grant);
      StepOfRedeem(w, e, grant);
    }
  }

  lemma RefreshHistory(w: World, e: Event) returns (h: World)
    requires e.RefreshToken?
    ensures Step(w, e) == Commit(h, e.process, RefreshOutcome(w, e).0) && h.now == w.now
  {
    if RefreshOutcome(w, e).1.Ok? && RefreshOutcome(w, e).1.value.refreshToken == Drawn(w).refresh {
      h := Extended(w, Sha256(e.token), Sha256(Drawn(w).refresh));
      StepWithRotation(w, e);
    } else {
      h := w;
      StepWithoutRotation(w, e);
    }
  }

  /** The record of an issued access token: it is as issued, gone once revoked, and there until then
      or until it expires. */
  ghost predicate Lives(v: World, k: Digest, rec: TokenRecord, revoked: bool) {
    && k.token < v.next
    && (k in v.tables.access ==> v.tables.access[k] == rec && !revoked)
    && (!revoked && v.now < rec.expiresAt ==> k in v.tables.access)
  }

  predicate Revokes(e: Event, k: Digest) {
    e.RevokeToken? && Sha256(e.token) == k
  }

  lemma LivesOn(v: World, e: Event, k: Digest, rec: TokenRecord, revoked: bool)
    requires Lives(v, k, rec, revoked)
    ensures Lives(Step(v, e), k, rec, revoked || Revokes(e, k))
  {
    if Acts(e) {
      AccessAfterStep(v, e, k);
      NextGrows(v, e);
    }
  }

  lemma NextGrows(v: World, e: Event)
    ensures v.next <= Step(v, e).next && v.now <= Step(v, e).now && (Acts(e) ==> Step(v, e).now == v.now && Step(v, e).next == v.next + 2)
  {
  }

  ghost predicate RevokedIn(events: seq<Event>, k: Digest) {
    exists i :: 0 <= i < |events| && Revokes(events[i], k)
  }

  lemma {:induction false} RunLives(u: World, events: seq<Event>, k: Digest, rec: TokenRecord)
    requires Lives(u, k, rec, false)
    ensures Lives(Run(u, events), k, rec, RevokedIn(events, k))
    decreases |events|
  {
    if events == [] {
    } else {
      var n := |events| - 1;
      RunLives(u, events[..n], k, rec);
      LivesOn(Run(u, events[..n]), events[n], k, rec, RevokedIn(events[..n], k));
      assert RevokedIn(events, k) <==> RevokedIn(events[..n], k) || Revokes(events[n], k) by {
        assert forall i :: 0 <= i < n ==> events[..n][i] == events[i];
      }
    }
  }

  /** After any run of any processes an answered access token is good, that is, stored and not
      expired, exactly when its hour is not over and nobody has revoked it; and what is stored of it
      is the client, the answered scopes, the resource and the subject it was issued for. */
  lemma AccessTokenLivesIff(w: World, e: Event, between: seq<Event>)
    requires AnswerOf(w, e).Some?
    ensures var v, k := Run(Step(w, e), between), Sha256(AnswerOf(w, e).value.accessToken);
            var rec := AccessOf(e.clientId, AnswerOf(w, e).value, Presented(w, e).0, Presented(w, e).1, w.now);
            && (k in v.tables.access && v.now < v.tables.access[k].expiresAt <==> v.now < w.now + ACCESS_TTL_MS && !RevokedIn(between, k))
            && (k in v.tables.access ==> v.tables.access[k] == rec)
  {
    var k := Sha256(AnswerOf(w, e).value.accessToken);
    var rec := AccessOf(e.clientId, AnswerOf(w, e).value, Presented(w, e).0, Presented(w, e).1, w.now);
    AccessAfterStep(w, e, k);
    NextGrows(w, e);
    RunLives(Step(w, e), between, k, rec);
  }
}
