/** The promises of refresh-token rotation, over every run of RefreshRuns. */
module RefreshTheorems {
  import opened Basics
  import opened RefreshTokens
  import opened RefreshRuns

  // ----- what a revoked chain removes -----

  /** `part` is a table in which the walk from `key` finds every record it finds in the whole. */
  ghost predicate Ahead(w: World, part: map<Digest, TokenRecord>, key: Digest) {
    && Shrunk(part, w.tables.refresh)
    && key in w.place
    && forall d :: d in w.tables.refresh && d in w.place && w.place[d].family == w.place[key].family && w.place[d].gen >= w.place[key].gen
         ==> d in part
  }

  /** Every issued generation of the family from `key` up to, but not including, `d` is stored. */
  ghost predicate Unbroken(w: World, key: Digest, d: Digest) {
    && key in w.place && d in w.place && w.place[d].family == w.place[key].family && w.place[key].gen <= w.place[d].gen
    && forall x :: x in w.place && w.place[x].family == w.place[key].family && w.place[key].gen <= w.place[x].gen < w.place[d].gen
         ==> x in w.tables.refresh
  }

  lemma UnbrokenNext(w: World, key: Digest, next: Digest, d: Digest)
    requires Placed(w) && key in w.tables.refresh && key in w.place && d in w.place && next in w.place && d != key
    requires w.place[next] == Place(w.place[key].family, w.place[key].gen + 1)
    ensures Unbroken(w, key, d) <==> Unbroken(w, next, d)
  {
    assert w.place[d] != w.place[key];
    forall x | x in w.place && w.place[x].family == w.place[key].family && w.place[x].gen == w.place[key].gen ensures x == key {
      assert w.place[x] == w.place[key];
    }
  }

  /** Revoking from `key` reaches exactly the later members with no missing generation before them. */
  lemma {:induction false} TrailIsUnbroken(w: World, part: map<Digest, TokenRecord>, key: Digest, d: Digest)
    requires Inv(w) && Ahead(w, part, key) && d in w.place
    ensures d in Trail(part, key) <==> Unbroken(w, key, d)
    decreases part.Keys
  {
    if key in part {
      assert RecordOk(w, key, w.tables.refresh[key]);
    }
    if key in part && part[key].successor.Some? {
      var next := part[key].successor.value;
      AheadNext(w, part, key, next);
      TrailIsUnbroken(w, part - {key}, next, d);
      if d != key {
        UnbrokenNext(w, key, next, d);
      }
    } else if d != key {
      TrailEnds(w, part, key, d);
    }
  }

  lemma AheadNext(w: World, part: map<Digest, TokenRecord>, key: Digest, next: Digest)
    requires Placed(w) && Ahead(w, part, key) && next in w.place
    requires w.place[next] == Place(w.place[key].family, w.place[key].gen + 1)
    ensures Ahead(w, part - {key}, next)
  {
  }

  lemma TrailEnds(w: World, part: map<Digest, TokenRecord>, key: Digest, d: Digest)
    requires Placed(w) && Ahead(w, part, key) && d in w.place && d != key
    requires key in part ==> Last(w, key)
    ensures !Unbroken(w, key, d)
  {
    assert w.place[d] != w.place[key];
  }

  // ----- stored members of a family are contiguous -----

  /** `RevokeToken` is only ever given a refresh token that has not been superseded. */
  ghost predicate Polite(w: World, e: Event) {
    e.RevokeToken? && Sha256(e.token) in w.tables.refresh ==> w.tables.refresh[Sha256(e.token)].supersededAt.None?
  }

  ghost predicate PoliteRun(w: World, events: seq<Event>)
    decreases |events|
  {
    events == [] || (PoliteRun(w, events[..|events| - 1]) && Polite(Run(w, events[..|events| - 1]), events[|events| - 1]))
  }

  /** Expiry removes the oldest members first. */
  lemma ExpiryContiguous(w: World, v: World, now: int)
    requires Ordered(w) && Contiguous(w) && v.place == w.place
    requires v.tables.refresh == map k | k in w.tables.refresh && w.tables.refresh[k].expiresAt > now :: w.tables.refresh[k]
    ensures Contiguous(v)
  {
    forall a, b, c | Between(v, a, b, c) ensures b in v.tables.refresh {
      assert Between(w, a, b, c);
      assert Earlier(w, a, b);
      assert w.tables.refresh[a].expiresAt <= w.tables.refresh[b].expiresAt;
    }
  }

  /** Among contiguous members, whatever leads unbroken to `b` leads unbroken to a later stored `c`. */
  lemma UnbrokenOnward(w: World, key: Digest, b: Digest, c: Digest)
    requires Placed(w) && Contiguous(w) && Unbroken(w, key, b)
    requires b in w.tables.refresh && c in w.tables.refresh && Earlier(w, b, c)
    ensures Unbroken(w, key, c)
  {
    forall x | x in w.place && w.place[x].family == w.place[key].family && w.place[key].gen <= w.place[x].gen < w.place[c].gen
      ensures x in w.tables.refresh
    {
      if w.place[x].gen > w.place[b].gen {
        assert Between(w, b, x, c);
      } else if w.place[x] == w.place[b] {
        assert x == b;
      }
    }
  }

  /** Revoking a family from one of its members removes everything after it. */
  lemma RevocationContiguous(w: World, v: World, key: Digest)
    requires Inv(w) && Contiguous(w) && v.place == w.place && key in w.tables.refresh && key in w.place
    requires v.tables.refresh == w.tables.refresh - Trail(w.tables.refresh, key)
    ensures Contiguous(v)
  {
    forall a, b, c | Between(v, a, b, c) ensures b in v.tables.refresh {
      RevocationBetween(w, v, key, a, b, c);
    }
  }

  lemma RevocationBetween(w: World, v: World, key: Digest, a: Digest, b: Digest, c: Digest)
    requires Inv(w) && Contiguous(w) && v.place == w.place && key in w.tables.refresh && key in w.place
    requires v.tables.refresh == w.tables.refresh - Trail(w.tables.refresh, key)
    requires Between(v, a, b, c)
    ensures b in v.tables.refresh
  {
    assert Between(w, a, b, c);
    TrailIsUnbroken(w, w.tables.refresh, key, b);
    TrailIsUnbroken(w, w.tables.refresh, key, c);
    if b in Trail(w.tables.refresh, key) {
      UnbrokenOnward(w, key, b, c);
    }
  }

  lemma LastDropContiguous(w: World, v: World, key: Digest)
    requires Placed(w) && Contiguous(w) && v.place == w.place
    requires v.tables.refresh == w.tables.refresh - {key}
    requires key in w.tables.refresh ==> key in w.place && Last(w, key)
    ensures Contiguous(v)
  {
    forall a, b, c | Between(v, a, b, c) ensures b in v.tables.refresh {
      assert Between(w, a, b, c);
    }
  }

  lemma LoadedContiguous(w: World, process: nat)
    requires Inv(w) && Contiguous(w)
    ensures Contiguous(Loaded(w, process))
  {
    ExpiryContiguous(w, Loaded(w, process), w.now);
  }

  lemma CommitContiguous(h: World, process: nat, m: Memory)
    requires Inv(Applied(h, process, m)) && Contiguous(Applied(h, process, m))
    ensures Contiguous(Commit(h, process, m))
  {
    ExpiryContiguous(Applied(h, process, m), Commit(h, process, m), h.now);
  }

  lemma QuietContiguous(w: World, process: nat, m: Memory)
    requires Inv(w) && Contiguous(w)
    requires Shrunk(m.tables.refresh, Begin(w, process).tables.refresh) && CacheOk(m)
    requires forall c :: c in m.tables.codes ==> c.token <= w.next
    requires Contiguous(Applied(w, process, m))
    ensures Contiguous(Commit(w, process, m))
  {
    LoadedInv(w, process);
    DropKeepsInv(Loaded(w, process), Applied(w, process, m));
    CommitContiguous(w, process, m);
  }

  /** Adding a first member of a new family, or the child of the last member of an old one. */
  lemma GrowthContiguous(w: World, v: World, added: Digest)
    requires Placed(w) && Contiguous(w) && added !in w.place && w.tables.refresh.Keys <= w.place.Keys
    requires v.tables.refresh.Keys == w.tables.refresh.Keys + {added}
    requires forall d :: d in w.place ==> d in v.place && v.place[d] == w.place[d]
    requires v.place.Keys == w.place.Keys + {added}
    requires || v.place[added] == Place(|w.sizes|, 0)
             || exists p :: p in w.tables.refresh && v.place[added] == Place(w.place[p].family, w.place[p].gen + 1) && Last(w, p)
    ensures Contiguous(v)
  {
    forall a, b, c | Between(v, a, b, c) ensures b in v.tables.refresh {
      if c == added {
        if b != added && v.place[added] != Place(|w.sizes|, 0) {
          var p :| p in w.tables.refresh && v.place[added] == Place(w.place[p].family, w.place[p].gen + 1) && Last(w, p);
          if b != p {
            assert w.place[b] != w.place[p];
            assert Between(w, a, b, p);
          }
        }
      } else if b != added {
        assert Between(w, a, b, c);
      }
    }
  }

  lemma EffectContiguous(l: World, v: World, key: Digest, effect: Effect)
    requires Inv(l) && Contiguous(l) && EffectIs(l, v, key, effect)
    ensures Contiguous(v)
  {
    match effect
    case Rotation(child, next) => RotatedContiguous(l, v, key, child, next);
    case Renewal(_) => SameKeysContiguous(l, v);
    case Silence =>
      KeysPlaced(l);
      if v.tables.refresh != l.tables.refresh {
        RevocationContiguous(l, v, key);
      } else {
        SameKeysContiguous(l, v);
      }
  }

  lemma RefreshContiguous(w: World, e: Event)
    requires Inv(w) && Contiguous(w) && e.RefreshToken?
    ensures Contiguous(Step(w, e))
  {
    var effect, h, m := RefreshEffect(w, e);
    var l, v := Loaded(w, e.process), Applied(h, e.process, m);
    LoadedInv(w, e.process);
    LoadedContiguous(w, e.process);
    EffectInv(l, v, Sha256(e.token), effect);
    EffectContiguous(l, v, Sha256(e.token), effect);
    CommitContiguous(h, e.process, m);
  }

  lemma SameKeysContiguous(w: World, v: World)
    requires Contiguous(w) && v.place == w.place && v.tables.refresh.Keys == w.tables.refresh.Keys
    ensures Contiguous(v)
  {
    forall a, b, c | Between(v, a, b, c) ensures b in v.tables.refresh {
      assert Between(w, a, b, c);
    }
  }

  lemma RotatedContiguous(w: World, v: World, parent: Digest, child: Digest, next: seq<string>)
    requires Rotated(w, v, parent, child, next) && Contiguous(w)
    ensures Contiguous(v)
  {
    RotatePlaced(w, v, parent, child, next);
    KeysPlaced(w);
    assert v.place[child] == Place(w.place[parent].family, w.place[parent].gen + 1);
    GrowthContiguous(w, v, child);
  }

  lemma FoundedContiguous(w: World, v: World, first: Digest, rec: TokenRecord)
    requires Inv(w) && Contiguous(w) && first.token >= w.next
    requires v.tables.refresh == w.tables.refresh[first := rec]
    requires v.place == w.place[first := Place(|w.sizes|, 0)]
    ensures Contiguous(v)
  {
    KeysPlaced(w);
    GrowthContiguous(w, v, first);
  }

  lemma KeysPlaced(w: World)
    requires Inv(w)
    ensures w.tables.refresh.Keys <= w.place.Keys
  {
    forall k | k in w.tables.refresh ensures k in w.place {
      assert RecordOk(w, k, w.tables.refresh[k]);
    }
  }

  lemma RedeemContiguous(w: World, e: Event)
    requires Inv(w) && Contiguous(w) && e.RedeemCode?
    ensures Contiguous(Step(w, e))
  {
    var (m, r) := RedeemOutcome(w, e);
    LoadedContiguous(w, e.process);
    if r.Err? {
      BeginFacts(w, e.process);
      SameKeysContiguous(Loaded(w, e.process), Applied(w, e.process, m));
      QuietContiguous(w, e.process, m);
    } else {
      var h := RedeemFounds(w, e);
      LoadedInv(w, e.process);
      FoundedContiguous(Loaded(w, e.process), Applied(h, e.process, m), Sha256(r.value.refreshToken), m.tables.refresh[Sha256(r.value.refreshToken)]);
      CommitContiguous(h, e.process, m);
    }
  }

  lemma StepContiguous(w: World, e: Event)
    requires Inv(w) && Contiguous(w) && Polite(w, e)
    ensures Contiguous(Step(w, e))
  {
    match e
    case Tick(_) => SameKeysContiguous(w, Step(w, e));
    case Restart(_) => SameKeysContiguous(w, Step(w, e));
    case Authorize(_, _, _, _, _) => AuthorizeContiguous(w, e);
    case RedeemCode(_, _, _, _, _) => RedeemContiguous(w, e);
    case RefreshToken(_, _, _, _, _) => RefreshContiguous(w, e);
    case RevokeToken(_, _) => RevokeContiguous(w, e);
  }

  lemma AuthorizeContiguous(w: World, e: Event)
    requires Inv(w) && Contiguous(w) && e.Authorize?
    ensures Contiguous(Commit(w, e.process, AfterAuthorize(w, e)))
  {
    AuthorizeAdds(Begin(w, e.process), e, w.next, w.now);
    UnchangedContiguous(w, e.process, AfterAuthorize(w, e));
  }

  lemma AuthorizeAdds(b: Memory, e: Event, code: Token, now: int)
    requires e.Authorize?
    ensures var m := RefreshTokens.Authorize(b, e.clientId, e.redirectUri, e.scopes, e.resource, RESOURCE, code, now).0;
            m.tables.refresh == b.tables.refresh && m.recent == b.recent && m.tables.codes.Keys <= b.tables.codes.Keys + {Sha256(code)}
  {
  }

  /** An operation that leaves the refresh table alone leaves it contiguous. */
  lemma UnchangedContiguous(w: World, process: nat, m: Memory)
    requires Inv(w) && Contiguous(w)
    requires m.tables.refresh == Begin(w, process).tables.refresh && m.recent == Begin(w, process).recent
    requires m.tables.codes.Keys <= Begin(w, process).tables.codes.Keys + {Sha256(w.next)}
    ensures Contiguous(Commit(w, process, m))
  {
    BeginFacts(w, process);
    LoadedContiguous(w, process);
    SameKeysContiguous(Loaded(w, process), Applied(w, process, m));
    QuietContiguous(w, process, m);
  }

  lemma RevokeContiguous(w: World, e: Event)
    requires Inv(w) && Contiguous(w) && e.RevokeToken? && Polite(w, e)
    ensures Contiguous(Commit(w, e.process, Revoke(Begin(w, e.process), e.token)))
  {
    BeginFacts(w, e.process);
    LoadedInv(w, e.process);
    LoadedContiguous(w, e.process);
    var l, key, m := Loaded(w, e.process), Sha256(e.token), Revoke(Begin(w, e.process), e.token);
    if key in l.tables.refresh {
      assert RecordOk(l, key, l.tables.refresh[key]);
    }
    LastDropContiguous(l, Applied(w, e.process, m), key);
    QuietContiguous(w, e.process, m);
  }

  /** In every run that never revokes a superseded token, what is stored of a family is a
      contiguous run of its generations. */
  lemma {:induction false} StoredGenerationsAreContiguous(confidential: set<string>, events: seq<Event>)
    requires PoliteRun(Init(confidential), events)
    ensures Contiguous(Run(Init(confidential), events))
    decreases |events|
  {
    if events == [] {
    } else {
      var prefix := events[..|events| - 1];
      RunInv(confidential, prefix);
      StoredGenerationsAreContiguous(confidential, prefix);
      StepContiguous(Run(Init(confidential), prefix), events[|events| - 1]);
    }
  }

  // ----- a family is one chain -----

  ghost predicate SameFamily(w: World, a: Digest, b: Digest) {
    a in w.place && b in w.place && w.place[a].family == w.place[b].family
  }

  /** Over every run, each refresh family is one chain that never branches. */
  lemma FamilyIsOneChain(confidential: set<string>, events: seq<Event>)
    ensures var w := Run(Init(confidential), events);
            var t := w.tables.refresh;
            && (forall k :: k in t ==> k in w.place && (t[k].supersededAt.Some? <==> t[k].successor.Some?))
            && (forall k, l :: k in t && l in t && t[k].successor.Some? && t[k].successor == t[l].successor ==> k == l)
            && (forall k, l :: k in t && l in t && SameFamily(w, k, l) && t[k].supersededAt.None? && t[l].supersededAt.None? ==> k == l)
            && (forall k :: k in t && t[k].successor.Some? && t[k].successor.value in t ==>
                  SameFamily(w, k, t[k].successor.value)
                  && t[k].expiresAt <= t[t[k].successor.value].expiresAt
                  && Within(t[t[k].successor.value].scopes, t[k].scopes))
  {
    RunInv(confidential, events);
    var w := Run(Init(confidential), events);
    InvIsOneChain(w);
  }

  lemma InvIsOneChain(w: World)
    requires Inv(w)
    ensures var t := w.tables.refresh;
            && (forall k :: k in t ==> k in w.place && (t[k].supersededAt.Some? <==> t[k].successor.Some?))
            && (forall k, l :: k in t && l in t && t[k].successor.Some? && t[k].successor == t[l].successor ==> k == l)
            && (forall k, l :: k in t && l in t && SameFamily(w, k, l) && t[k].supersededAt.None? && t[l].supersededAt.None? ==> k == l)
            && (forall k :: k in t && t[k].successor.Some? && t[k].successor.value in t ==>
                  SameFamily(w, k, t[k].successor.value)
                  && t[k].expiresAt <= t[t[k].successor.value].expiresAt
                  && Within(t[t[k].successor.value].scopes, t[k].scopes))
  {
    var t := w.tables.refresh;
    KeysPlaced(w);
    forall k, l | k in t && l in t && t[k].successor.Some? && t[k].successor == t[l].successor ensures k == l {
      assert RecordOk(w, k, t[k]) && RecordOk(w, l, t[l]);
      assert w.place[k] == w.place[l];
    }
    forall k, l | k in t && l in t && SameFamily(w, k, l) && t[k].supersededAt.None? && t[l].supersededAt.None? ensures k == l {
      assert RecordOk(w, k, t[k]) && RecordOk(w, l, t[l]);
      assert w.place[k] == w.place[l];
    }
    forall k | k in t && t[k].successor.Some? && t[k].successor.value in t
      ensures SameFamily(w, k, t[k].successor.value)
      ensures t[k].expiresAt <= t[t[k].successor.value].expiresAt && Within(t[t[k].successor.value].scopes, t[k].scopes)
    {
      assert RecordOk(w, k, t[k]);
      assert Earlier(w, k, t[k].successor.value);
    }
  }

  // ----- replay outside the grace window -----

  /** The request passes the client, resource and scope checks for the stored record of its token. */
  ghost predicate Admitted(b: Memory, q: RefreshRequest, now: int) {
    var key := Sha256(q.token);
    && key in b.tables.refresh && b.tables.refresh[key].clientId == q.clientId && b.tables.refresh[key].expiresAt > now
    && (q.resource.Some? ==> q.resource.value == b.tables.refresh[key].resource)
    && NextScopes(q.scopes, b.tables.refresh[key].scopes).Ok?
  }

  ghost predicate Replays(w: World, e: Event) {
    && e.RefreshToken?
    && var b, key := Begin(w, e.process), Sha256(e.token);
       && Admitted(b, RequestOf(w, e), w.now)
       && b.tables.refresh[key].supersededAt.Some?
       && w.now - b.tables.refresh[key].supersededAt.value > REFRESH_REUSE_GRACE_MS
  }

  /** The family holds no token that could still be rotated. */
  ghost predicate Dead(w: World, family: nat) {
    forall k :: k in w.tables.refresh && k in w.place && w.place[k].family == family ==> w.tables.refresh[k].supersededAt.Some?
  }

  lemma ReplayInMemory(b: Memory, q: RefreshRequest, now: int, drawn: Draw)
    requires Admitted(b, q, now) && q.publicClient
    requires b.tables.refresh[Sha256(q.token)].supersededAt.Some?
    requires now - b.tables.refresh[Sha256(q.token)].supersededAt.value > REFRESH_REUSE_GRACE_MS
    ensures Refresh(b, q, now, drawn) == (RevokeFamily(b, Sha256(q.token)), Err(InvalidGrant))
  {
  }

  /** The final prune of an operation removes nothing that the first one kept. */
  lemma CommitKeeps(w: World, h: World, process: nat, m: Memory)
    requires Shrunk(m.tables.refresh, Begin(w, process).tables.refresh) && h.now == w.now
    ensures Commit(h, process, m).tables.refresh == m.tables.refresh
  {
    assert forall k :: k in m.tables.refresh ==> Begin(w, process).tables.refresh[k].expiresAt > w.now;
  }

  lemma ReplayEffect(w: World, e: Event)
    requires Inv(w) && Replays(w, e)
    ensures RefreshOutcome(w, e).1 == Err(InvalidGrant)
    ensures Step(w, e).tables.refresh == Begin(w, e.process).tables.refresh - Trail(Begin(w, e.process).tables.refresh, Sha256(e.token))
    ensures Step(w, e).place == w.place
  {
    var b, key := Begin(w, e.process), Sha256(e.token);
    assert key in w.tables.refresh && b.tables.refresh[key] == w.tables.refresh[key];
    SupersededIsPublic(w, key);
    ReplayInMemory(b, RequestOf(w, e), w.now, Drawn(w));
    StepWithoutRotation(w, e);
    CommitKeeps(w, w, e.process, RevokeFamily(b, key));
  }

  /** In any run at all: a replay removes the family's rotatable token exactly when no
      generation between the replayed token and it has been cut out. */
  lemma ReplayRemovesTipIff(confidential: set<string>, events: seq<Event>, e: Event, tip: Digest)
    requires var w := Run(Init(confidential), events);
             && Replays(w, e)
             && tip in Begin(w, e.process).tables.refresh && SameFamily(w, tip, Sha256(e.token))
             && Begin(w, e.process).tables.refresh[tip].supersededAt.None?
    ensures var w := Run(Init(confidential), events);
            tip !in Step(w, e).tables.refresh <==> Unbroken(Loaded(w, e.process), Sha256(e.token), tip)
  {
    RunInv(confidential, events);
    var w := Run(Init(confidential), events);
    ReplayEffect(w, e);
    LoadedInv(w, e.process);
    TrailIsUnbroken(Loaded(w, e.process), Begin(w, e.process).tables.refresh, Sha256(e.token), tip);
  }

  /** In every run that never revokes a superseded token, a replay outside the grace window is
      refused and leaves the family without a rotatable token. */
  lemma ReplayKillsFamily(confidential: set<string>, events: seq<Event>, e: Event)
    requires PoliteRun(Init(confidential), events) && Replays(Run(Init(confidential), events), e)
    ensures var w := Run(Init(confidential), events);
            && RefreshOutcome(w, e).1 == Err(InvalidGrant)
            && Sha256(e.token) in w.place
            && Dead(Step(w, e), w.place[Sha256(e.token)].family)
  {
    RunInv(confidential, events);
    StoredGenerationsAreContiguous(confidential, events);
    var w := Run(Init(confidential), events);
    var b, l, key := Begin(w, e.process), Loaded(w, e.process), Sha256(e.token);
    ReplayEffect(w, e);
    LoadedInv(w, e.process);
    LoadedContiguous(w, e.process);
    assert RecordOk(l, key, l.tables.refresh[key]);
    forall k | k in Step(w, e).tables.refresh && w.place[k].family == w.place[key].family && k in w.place
      ensures Step(w, e).tables.refresh[k].supersededAt.Some?
    {
      assert RecordOk(l, k, l.tables.refresh[k]);
      if l.tables.refresh[k].supersededAt.None? {
        assert Unbroken(l, key, key) && Earlier(l, key, k);
        UnbrokenOnward(l, key, key, k);
        TrailIsUnbroken(l, b.tables.refresh, key, k);
      }
    }
  }

  // ----- a dead family stays dead -----

  lemma DeadRefusesRefresh(w: World, family: nat, e: Event)
    requires Inv(w) && Dead(w, family) && e.RefreshToken?
    requires Sha256(e.token) in w.place && w.place[Sha256(e.token)].family == family
    ensures RefreshOutcome(w, e).1.Err?
  {
    var b, key := Begin(w, e.process), Sha256(e.token);
    BeginFacts(w, e.process);
    if key in b.tables.refresh {
      DeadRecord(w, family, key);
      assert e.clientId == b.tables.refresh[key].clientId ==> RequestOf(w, e).publicClient;
    }
    SpentRetryRefused(b, RequestOf(w, e), w.now, Drawn(w));
  }

  lemma DeadRecord(w: World, family: nat, key: Digest)
    requires Inv(w) && Dead(w, family) && key in w.tables.refresh && key in w.place && w.place[key].family == family
    ensures var t := w.tables.refresh;
            && t[key].supersededAt.Some? && t[key].clientId !in w.confidential && t[key].successor.Some?
            && (t[key].successor.value in t ==> t[t[key].successor.value].supersededAt.Some?)
  {
    assert RecordOk(w, key, w.tables.refresh[key]);
  }

  lemma SpentRetryRefused(b: Memory, q: RefreshRequest, now: int, drawn: Draw)
    requires Sha256(q.token) in b.tables.refresh && b.tables.refresh[Sha256(q.token)].clientId == q.clientId ==>
               (var rec := b.tables.refresh[Sha256(q.token)];
                q.publicClient && rec.supersededAt.Some? && rec.successor.Some?
                && (rec.successor.value in b.tables.refresh ==> b.tables.refresh[rec.successor.value].supersededAt.Some?))
    ensures Refresh(b, q, now, drawn).1.Err?
  {
  }

  /** Everything `v` holds of the family was held, equally superseded, by `w`. */
  ghost predicate NothingNew(w: World, v: World, family: nat) {
    && |w.sizes| <= |v.sizes|
    && (forall d :: d in w.place ==> d in v.place && v.place[d] == w.place[d])
    && (forall k :: k in v.tables.refresh && k in v.place && v.place[k].family == family ==>
          k in w.tables.refresh && k in w.place && v.tables.refresh[k].supersededAt == w.tables.refresh[k].supersededAt)
  }

  lemma DropNothingNew(w: World, process: nat, m: Memory, family: nat)
    requires Shrunk(m.tables.refresh, Begin(w, process).tables.refresh)
    ensures NothingNew(w, Commit(w, process, m), family)
  {
    CommitKeeps(w, w, process, m);
    assert Shrunk(m.tables.refresh, w.tables.refresh);
  }

  lemma RedeemNothingNew(w: World, e: Event, family: nat)
    requires Inv(w) && e.RedeemCode? && family < |w.sizes|
    ensures NothingNew(w, Step(w, e), family)
  {
    var (m, r) := RedeemOutcome(w, e);
    BeginFacts(w, e.process);
    if r.Err? {
      DropNothingNew(w, e.process, m, family);
    } else {
      KeysPlaced(w);
    }
  }

  lemma NothingNewTrans(u: World, v: World, w: World, family: nat)
    requires NothingNew(u, v, family) && NothingNew(v, w, family)
    ensures NothingNew(u, w, family)
  {
  }

  lemma LoadedNothingNew(w: World, process: nat, family: nat)
    ensures NothingNew(w, Loaded(w, process), family)
  {
  }

  lemma CommitNothingNew(h: World, process: nat, m: Memory, family: nat)
    ensures NothingNew(Applied(h, process, m), Commit(h, process, m), family)
  {
  }

  lemma RotatedNothingNew(w: World, v: World, parent: Digest, child: Digest, next: seq<string>, family: nat)
    requires Rotated(w, v, parent, child, next) && Dead(w, family) && family < |w.sizes|
    ensures NothingNew(w, v, family)
  {
    RotatePlaced(w, v, parent, child, next);
    KeysPlaced(w);
    assert w.place[parent].family != family;
    assert v.place == w.place[child := Place(w.place[parent].family, w.place[parent].gen + 1)];
    forall k | k in v.tables.refresh && k in v.place && v.place[k].family == family
      ensures k in w.tables.refresh && k in w.place && v.tables.refresh[k].supersededAt == w.tables.refresh[k].supersededAt
    {
      assert k != child && k != parent;
    }
  }

  lemma RenewedNothingNew(l: World, v: World, key: Digest, next: seq<string>, family: nat)
    requires Inv(l) && Dead(l, family) && Renewed(l, v, key, next)
    ensures NothingNew(l, v, family)
  {
    assert RecordOk(l, key, l.tables.refresh[key]);
    assert l.place[key].family != family;
  }

  lemma RefreshNothingNew(w: World, e: Event, family: nat)
    requires Inv(w) && Dead(w, family) && family < |w.sizes| && e.RefreshToken?
    ensures NothingNew(w, Step(w, e), family)
  {
    var effect, h, m := RefreshEffect(w, e);
    var l, v, key := Loaded(w, e.process), Applied(h, e.process, m), Sha256(e.token);
    LoadedInv(w, e.process);
    LoadedNothingNew(w, e.process, family);
    match effect {
      case Rotation(child, next) => RotatedNothingNew(l, v, key, child, next, family);
      case Renewal(next) => RenewedNothingNew(l, v, key, next, family);
      case Silence =>
    }
    NothingNewTrans(w, l, v, family);
    CommitNothingNew(h, e.process, m, family);
    NothingNewTrans(w, v, Commit(h, e.process, m), family);
  }

  lemma DeadStep(w: World, family: nat, e: Event)
    requires Inv(w) && Dead(w, family) && family < |w.sizes|
    ensures Dead(Step(w, e), family) && family < |Step(w, e).sizes|
    ensures forall d :: d in w.place ==> d in Step(w, e).place && Step(w, e).place[d] == w.place[d]
  {
    match e
    case Tick(_) =>
    case Restart(_) =>
    case Authorize(process, _, _, _, _) => DropNothingNew(w, process, AfterAuthorize(w, e), family);
    case RevokeToken(process, token) => DropNothingNew(w, process, Revoke(Begin(w, process), token), family);
    case RedeemCode(_, _, _, _, _) => RedeemNothingNew(w, e, family);
    case RefreshToken(_, _, _, _, _) => RefreshNothingNew(w, e, family);
  }

  /** Once a family has no rotatable token, no continuation of the run ever answers one of its
      tokens with a new pair again. */
  lemma {:induction false} DeadFamilyStaysDead(w: World, family: nat, events: seq<Event>, e: Event)
    requires Inv(w) && Dead(w, family) && family < |w.sizes|
    requires e.RefreshToken? && Sha256(e.token) in w.place && w.place[Sha256(e.token)].family == family
    ensures RefreshOutcome(Run(w, events), e).1.Err?
  {
    DeadRun(w, family, events);
    DeadRefusesRefresh(Run(w, events), family, e);
  }

  lemma {:induction false} DeadRun(w: World, family: nat, events: seq<Event>)
    requires Inv(w) && Dead(w, family) && family < |w.sizes|
    ensures var v := Run(w, events);
            Inv(v) && Dead(v, family) && family < |v.sizes| && forall d :: d in w.place ==> d in v.place && v.place[d] == w.place[d]
    decreases |events|
  {
    if events == [] {
    } else {
      var prefix := events[..|events| - 1];
      DeadRun(w, family, prefix);
      StepInv(Run(w, prefix), events[|events| - 1]);
      DeadStep(Run(w, prefix), family, events[|events| - 1]);
    }
  }

  // ----- retries -----

  /** Over every run: a superseded token is only ever answered with the successor it already
      has, which is still stored and not itself superseded, and the refresh table is untouched. */
  lemma RetryReturnsSuccessor(confidential: set<string>, events: seq<Event>, e: Event)
    requires var w := Run(Init(confidential), events);
             && e.RefreshToken? && Sha256(e.token) in Begin(w, e.process).tables.refresh
             && Begin(w, e.process).tables.refresh[Sha256(e.token)].supersededAt.Some?
             && RefreshOutcome(w, e).1.Ok?
    ensures var w := Run(Init(confidential), events);
            var t := Begin(w, e.process).tables.refresh;
            var child := Sha256(RefreshOutcome(w, e).1.value.refreshToken);
            && t[Sha256(e.token)].successor == Some(child)
            && child in t && t[child].supersededAt.None? && t[child].scopes == RefreshOutcome(w, e).1.value.scopes
            && Step(w, e).tables.refresh == t && Step(w, e).place == w.place
  {
    RunInv(confidential, events);
    RetryStep(Run(Init(confidential), events), e);
  }

  lemma RetryStep(w: World, e: Event)
    requires Inv(w) && e.RefreshToken? && Sha256(e.token) in Begin(w, e.process).tables.refresh
    requires Begin(w, e.process).tables.refresh[Sha256(e.token)].supersededAt.Some?
    requires RefreshOutcome(w, e).1.Ok?
    ensures var t := Begin(w, e.process).tables.refresh;
            var child := Sha256(RefreshOutcome(w, e).1.value.refreshToken);
            && t[Sha256(e.token)].successor == Some(child)
            && child in t && t[child].supersededAt.None? && t[child].scopes == RefreshOutcome(w, e).1.value.scopes
            && Step(w, e).tables.refresh == t && Step(w, e).place == w.place
  {
    var b, key := Begin(w, e.process), Sha256(e.token);
    var (m, r) := RefreshOutcome(w, e);
    BeginFacts(w, e.process);
    assert key in w.tables.refresh && b.tables.refresh[key] == w.tables.refresh[key];
    SupersededIsPublic(w, key);
    RetryInMemory(b, RequestOf(w, e), w.now, Drawn(w));
    assert r.value.refreshToken < w.next;
    StepWithoutRotation(w, e);
    CommitKeeps(w, w, e.process, m);
  }

  lemma SupersededIsPublic(w: World, key: Digest)
    requires Inv(w) && key in w.tables.refresh && w.tables.refresh[key].supersededAt.Some?
    ensures w.tables.refresh[key].clientId !in w.confidential
    ensures w.tables.refresh[key].successor.Some? && w.tables.refresh[key].successor.value.token < w.next
  {
    assert RecordOk(w, key, w.tables.refresh[key]);
  }

  lemma RetryInMemory(b: Memory, q: RefreshRequest, now: int, drawn: Draw)
    requires CacheOk(b) && Sha256(q.token) in b.tables.refresh && q.publicClient
    requires b.tables.refresh[Sha256(q.token)].supersededAt.Some? && Refresh(b, q, now, drawn).1.Ok?
    ensures var (m, r) := Refresh(b, q, now, drawn);
            var child := Sha256(r.value.refreshToken);
            && b.tables.refresh[Sha256(q.token)].successor == Some(child)
            && child in b.tables.refresh && b.tables.refresh[child].supersededAt.None?
            && b.tables.refresh[child].scopes == r.value.scopes
            && m.tables.refresh == b.tables.refresh
  {
  }

  // ----- scopes and codes -----

  /** Over every run, whatever a refresh answers stays within what the owner granted the family. */
  lemma IssuedScopesStayWithinGrant(confidential: set<string>, events: seq<Event>, e: Event)
    requires e.RefreshToken? && RefreshOutcome(Run(Init(confidential), events), e).1.Ok?
    ensures var w := Run(Init(confidential), events);
            && Sha256(e.token) in w.place && w.place[Sha256(e.token)].family < |w.grants|
            && e.clientId == w.grants[w.place[Sha256(e.token)].family].clientId
            && Within(RefreshOutcome(w, e).1.value.scopes, w.grants[w.place[Sha256(e.token)].family].scopes)
  {
    RunInv(confidential, events);
    var w := Run(Init(confidential), events);
    var key := Sha256(e.token);
    BeginFacts(w, e.process);
    AnswerWithinRecord(Begin(w, e.process), RequestOf(w, e), w.now, Drawn(w));
    assert RecordOk(w, key, w.tables.refresh[key]);
  }

  lemma AnswerWithinRecord(b: Memory, q: RefreshRequest, now: int, drawn: Draw)
    requires Refresh(b, q, now, drawn).1.Ok?
    ensures Sha256(q.token) in b.tables.refresh && b.tables.refresh[Sha256(q.token)].clientId == q.clientId
    ensures Within(Refresh(b, q, now, drawn).1.value.scopes, b.tables.refresh[Sha256(q.token)].scopes)
  {
  }

  /** The code was drawn and is gone: no later draw can bring it back. */
  ghost predicate Spent(w: World, code: Token) {
    Sha256(code) !in w.tables.codes && code < w.next
  }

  lemma SpentStep(w: World, code: Token, e: Event)
    requires Spent(w, code)
    ensures Spent(Step(w, e), code)
  {
    match e
    case Tick(_) =>
    case Restart(_) =>
    case Authorize(process, _, _, _, _) => SpentCommit(w, w, code, process, AfterAuthorize(w, e));
    case RevokeToken(process, token) => SpentCommit(w, w, code, process, Revoke(Begin(w, process), token));
    case RedeemCode(process, _, _, _, _) =>
      assert RedeemOutcome(w, e).0.tables.codes.Keys <= Begin(w, process).tables.codes.Keys;
      SpentCommit(w, w, code, process, RedeemOutcome(w, e).0);
    case RefreshToken(process, _, _, _, _) =>
      RefreshKeepsCodes(Begin(w, process), RequestOf(w, e), w.now, Drawn(w));
      SpentCommit(w, w, code, process, RefreshOutcome(w, e).0);
  }

  lemma RefreshKeepsCodes(b: Memory, q: RefreshRequest, now: int, drawn: Draw)
    ensures Refresh(b, q, now, drawn).0.tables.codes == b.tables.codes
  {
  }

  /** Committing tables whose codes are old ones, or the one just drawn, revives no code. */
  lemma SpentCommit(w: World, h: World, code: Token, process: nat, m: Memory)
    requires Spent(w, code) && h.next == w.next
    requires m.tables.codes.Keys <= Begin(w, process).tables.codes.Keys + {Sha256(w.next)}
    ensures Sha256(code) !in Commit(h, process, m).tables.codes && code < Commit(h, process, m).next
  {
  }

  lemma {:induction false} SpentRun(w: World, code: Token, events: seq<Event>)
    requires Spent(w, code)
    ensures Spent(Run(w, events), code)
    decreases |events|
  {
    if events == [] {
    } else {
      SpentRun(w, code, events[..|events| - 1]);
      SpentStep(Run(w, events[..|events| - 1]), code, events[|events| - 1]);
    }
  }

  /** A code that was exchanged once is refused in every continuation of the run. */
  lemma CodeIsRedeemedOnce(confidential: set<string>, events: seq<Event>, e: Event, later: seq<Event>, again: Event)
    requires e.RedeemCode? && RedeemOutcome(Run(Init(confidential), events), e).1.Ok?
    requires again.RedeemCode? && again.code == e.code
    ensures RedeemOutcome(Run(Step(Run(Init(confidential), events), e), later), again).1 == Err(InvalidGrant)
  {
    RunInv(confidential, events);
    var w := Run(Init(confidential), events);
    assert Sha256(e.code) in w.tables.codes;
    SpentRun(Step(w, e), e.code, later);
  }

  // ----- the exclusion in ReplayKillsFamily is needed -----

  const CUT_RUN: seq<Event> := [
    Authorize(0, "c", "u", [], None),
    RedeemCode(0, "c", 0, None, None),
    RefreshToken(0, "c", 3, None, None),
    RefreshToken(0, "c", 5, None, None),
    RevokeToken(0, 5),
    Tick(REFRESH_REUSE_GRACE_MS + 1)]

  const CUT_REPLAY := RefreshToken(0, "c", 3, None, None)

  function Member(at: Option<int>, next: Option<Digest>): TokenRecord {
    TokenRecord("c", ["mcp"], RESOURCE, "owner", REFRESH_TTL_MS, at, next)
  }

  ghost predicate Holds(w: World, token: Token, rec: TokenRecord) {
    Sha256(token) in w.tables.refresh && w.tables.refresh[Sha256(token)] == rec
  }

  /** Time has not moved yet, and nothing but drawn tokens is stored. */
  ghost predicate AtStart(w: World, next: Token) {
    w.now == 0 && w.confidential == {} && w.next == next
    && forall k :: k in w.tables.refresh ==> w.tables.refresh[k].expiresAt == REFRESH_TTL_MS
  }

  ghost predicate HasCode(w: World) {
    AtStart(w, 2) && Sha256(0) in w.tables.codes && w.tables.codes[Sha256(0)] == CodeRecord("c", "u", ["mcp"], RESOURCE, CODE_TTL_MS)
  }

  lemma AuthorizeStep(w: World)
    requires AtStart(w, 0)
    ensures HasCode(Step(w, CUT_RUN[0]))
  {
    assert NonEmpty([]) == [];
    assert Distinct(["mcp"]) == ["mcp"] by {
      assert ["mcp"][..0] == [];
      assert Distinct([]) == [];
    }
  }

  lemma RedeemStep(w: World)
    requires HasCode(w)
    ensures AtStart(Step(w, CUT_RUN[1]), 4) && Holds(Step(w, CUT_RUN[1]), 3, Member(None, None))
  {
  }

  lemma RotateStep(w: World, token: Token)
    requires w.now == 0 && w.confidential == {} && w.next > token && Holds(w, token, Member(None, None))
    requires forall k :: k in w.tables.refresh ==> w.tables.refresh[k].expiresAt == REFRESH_TTL_MS
    ensures var v := Step(w, RefreshToken(0, "c", token, None, None));
            && v.tables.refresh == w.tables.refresh[Sha256(token) := Member(Some(0), Some(Sha256(w.next + 1)))][Sha256(w.next + 1) := Member(None, None)]
            && v.next == w.next + 2 && v.now == 0 && v.confidential == {}
  {
    var e := RefreshToken(0, "c", token, None, None);
    var b := Begin(w, 0);
    assert b.tables.refresh == w.tables.refresh;
    RotateAnswer(b, RequestOf(w, e), w.now, Drawn(w));
    StepWithRotation(w, e);
    RotateTable(b, RequestOf(w, e), Drawn(w));
    AllKept(Extended(w, Sha256(token), Sha256(w.next + 1)), 0, RefreshOutcome(w, e).0);
  }

  lemma RotateAnswer(b: Memory, q: RefreshRequest, now: int, drawn: Draw)
    requires Admitted(b, q, now) && q.publicClient && q.scopes.None? && b.tables.refresh[Sha256(q.token)].supersededAt.None?
    ensures Refresh(b, q, now, drawn) == Rotate(b, q, b.tables.refresh[Sha256(q.token)].scopes, now, drawn)
  {
  }

  lemma RotateTable(b: Memory, q: RefreshRequest, drawn: Draw)
    requires Sha256(q.token) in b.tables.refresh && b.tables.refresh[Sha256(q.token)] == Member(None, None) && q.clientId == "c"
    ensures Rotate(b, q, ["mcp"], 0, drawn).0.tables.refresh
         == b.tables.refresh[Sha256(q.token) := Member(Some(0), Some(Sha256(drawn.refresh)))][Sha256(drawn.refresh) := Member(None, None)]
  {
  }

  lemma AllKept(h: World, process: nat, m: Memory)
    requires h.now == 0 && forall k :: k in m.tables.refresh ==> m.tables.refresh[k].expiresAt == REFRESH_TTL_MS
    ensures Commit(h, process, m).tables.refresh == m.tables.refresh
  {
  }

  ghost predicate Unexpired(w: World) {
    forall k :: k in w.tables.refresh ==> w.tables.refresh[k].expiresAt > w.now
  }

  lemma RevokeStep(w: World, process: nat, token: Token)
    requires Unexpired(w)
    ensures Step(w, RevokeToken(process, token)).tables.refresh == w.tables.refresh - {Sha256(token)}
  {
    assert Begin(w, process).tables.refresh == w.tables.refresh;
    CommitKeeps(w, w, process, Revoke(Begin(w, process), token));
  }

  /** The chain 3, 5, 7 after the revocation of 5. */
  ghost predicate Cut(w: World) {
    && w.confidential == {} && Unexpired(w)
    && Sha256(3) in w.tables.refresh && w.tables.refresh[Sha256(3)] == Member(Some(0), Some(Sha256(5)))
    && Sha256(5) !in w.tables.refresh
    && Sha256(7) in w.tables.refresh && w.tables.refresh[Sha256(7)] == Member(None, None)
  }

  lemma ReplayC(w: World)
    requires Inv(w) && Cut(w) && w.now == REFRESH_REUSE_GRACE_MS + 1
    ensures Replays(w, CUT_REPLAY)
    ensures Sha256(7) in Step(w, CUT_REPLAY).tables.refresh && Step(w, CUT_REPLAY).tables.refresh[Sha256(7)].supersededAt.None?
  {
    var refresh := Begin(w, 0).tables.refresh;
    assert refresh == w.tables.refresh;
    assert Trail(refresh, Sha256(3)) == {Sha256(3), Sha256(5)} by {
      assert Sha256(5) !in refresh - {Sha256(3)};
    }
    ReplayEffect(w, CUT_REPLAY);
  }

  /** What holds after the first `n` events. */
  ghost predicate Stage(n: nat, w: World) {
    if n == 0 then AtStart(w, 0)
    else if n == 1 then HasCode(w)
    else if n == 2 then AtStart(w, 4) && Holds(w, 3, Member(None, None))
    else if n == 3 then AtStart(w, 6) && Holds(w, 3, Member(Some(0), Some(Sha256(5)))) && Holds(w, 5, Member(None, None))
    else if n == 4 then AtStart(w, 8) && Holds(w, 3, Member(Some(0), Some(Sha256(5)))) && Holds(w, 7, Member(None, None))
    else if n == 5 then Cut(w) && w.now == 0 && forall k :: k in w.tables.refresh ==> w.tables.refresh[k].expiresAt == REFRESH_TTL_MS
    else Cut(w) && w.now == REFRESH_REUSE_GRACE_MS + 1
  }

  lemma StageStep(n: nat, w: World)
    requires n < 6 && Stage(n, w)
    ensures Stage(n + 1, Step(w, CUT_RUN[n]))
  {
    match n
    case 0 => AuthorizeStep(w);
    case 1 => RedeemStep(w);
    case 2 => RotateStep(w, 3);
    case 3 => RotateStep(w, 5);
    case 4 => RevokeStep(w, 0, 5);
    case 5 =>
  }

  lemma {:induction false} StageRun(n: nat)
    requires n <= 6
    ensures Stage(n, Run(Init({}), CUT_RUN[..n]))
  {
    if n == 0 {
    } else {
      StageRun(n - 1);
      assert CUT_RUN[..n][..n - 1] == CUT_RUN[..n - 1];
      StageStep(n - 1, Run(Init({}), CUT_RUN[..n - 1]));
    }
  }

  /** A concrete run in which the middle token of a family of three is revoked: the replay of
      the first token is refused, yet the third stays rotatable. */
  lemma CutFamilySurvivesReplay()
    ensures var w := Run(Init({}), CUT_RUN);
            && Replays(w, CUT_REPLAY)
            && Sha256(7) in Step(w, CUT_REPLAY).tables.refresh
            && Step(w, CUT_REPLAY).tables.refresh[Sha256(7)].supersededAt.None?
  {
    StageRun(6);
    assert CUT_RUN[..6] == CUT_RUN;
    RunInv({}, CUT_RUN);
    ReplayC(Run(Init({}), CUT_RUN));
  }
}
