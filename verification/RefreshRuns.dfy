/** Whole runs of the OAuth store: several server processes over one durable file, each with
    its own retry cache, in any order of authorise, redeem, refresh, revoke, restart and the
    passing of time. */
module RefreshRuns {
  import opened Basics
  import opened RefreshTokens

  /** Where an issued refresh token stands: which family, and how many rotations after the first. */
  datatype Place = Place(family: nat, gen: nat)

  /** What the owner granted when the family began. */
  datatype Grant = Grant(clientId: string, scopes: seq<string>, resource: string)

  /** `place`, `sizes` and `grants` are history: they are never read by an operation. */
  datatype World = World(
    tables: Tables,
    recents: map<nat, map<Digest, RecentSuccessor>>,
    now: int,
    next: Token,
    confidential: set<string>,
    place: map<Digest, Place>,
    sizes: seq<nat>,
    grants: seq<Grant>)

  const RESOURCE := "https://mcp/"

  datatype Event =
    | Tick(elapsed: nat)
    | Restart(process: nat)
    | Authorize(process: nat, clientId: string, redirectUri: string, scopes: seq<string>, resource: Option<string>)
    | RedeemCode(process: nat, clientId: string, code: Token, codeRedirect: Option<string>, codeResource: Option<string>)
    | RefreshToken(process: nat, clientId: string, token: Token, refreshScopes: Option<seq<string>>, refreshResource: Option<string>)
    | RevokeToken(process: nat, token: Token)

  function Init(confidential: set<string>): World {
    World(Tables(map[], map[], map[]), map[], 0, 0, confidential, map[], [], [])
  }

  function RecentOf(w: World, process: nat): map<Digest, RecentSuccessor> {
    if process in w.recents then w.recents[process] else map[]
  }

  function Drawn(w: World): Draw {
    Draw(w.next, w.next + 1)
  }

  /** Every operation loads and prunes the file, acts, then prunes and writes the file back. */
  function Begin(w: World, process: nat): Memory {
    Prune(Memory(w.tables, RecentOf(w, process)), w.now)
  }

  function Commit(w: World, process: nat, m: Memory): World {
    var p := Prune(m, w.now);
    w.(tables := p.tables, recents := w.recents[process := p.recent], next := w.next + 2)
  }

  function RequestOf(w: World, e: Event): RefreshRequest
    requires e.RefreshToken?
  {
    RefreshRequest(e.clientId, e.clientId !in w.confidential, e.token, e.refreshScopes, e.refreshResource)
  }

  function RefreshOutcome(w: World, e: Event): Outcome
    requires e.RefreshToken?
  {
    Refresh(Begin(w, e.process), RequestOf(w, e), w.now, Drawn(w))
  }

  function RedeemOutcome(w: World, e: Event): Outcome
    requires e.RedeemCode?
  {
    Redeem(Begin(w, e.process), e.clientId, e.code, e.codeRedirect, e.codeResource, "owner", w.now, Drawn(w))
  }

  function AfterAuthorize(w: World, e: Event): Memory
    requires e.Authorize?
  {
    RefreshTokens.Authorize(Begin(w, e.process), e.clientId, e.redirectUri, e.scopes, e.resource, RESOURCE, w.next, w.now).0
  }

  /** The history after a refresh that issued the drawn token: the family is one longer. */
  function Extended(w: World, parent: Digest, child: Digest): World {
    if parent in w.place && w.place[parent].family < |w.sizes| then
      var p := w.place[parent];
      w.(place := w.place[child := Place(p.family, p.gen + 1)], sizes := w.sizes[p.family := p.gen + 2])
    else w
  }

  function Founded(w: World, first: Digest, grant: Grant): World {
    w.(place := w.place[first := Place(|w.sizes|, 0)], sizes := w.sizes + [1], grants := w.grants + [grant])
  }

  function Step(w: World, e: Event): World {
    match e
    case Tick(elapsed) => w.(now := w.now + elapsed)
    case Restart(process) => w.(recents := w.recents - {process})
    case Authorize(process, _, _, _, _) => Commit(w, process, AfterAuthorize(w, e))
    case RedeemCode(process, _, code, _, _) =>
      var (m, r) := RedeemOutcome(w, e);
      var h := if r.Ok? then
                 var rec := Begin(w, process).tables.codes[Sha256(code)];
                 Founded(w, Sha256(r.value.refreshToken), Grant(rec.clientId, rec.scopes, rec.resource))
               else w;
      Commit(h, process, m)
    case RefreshToken(process, _, token, _, _) =>
      var (m, r) := RefreshOutcome(w, e);
      var h := if r.Ok? && r.value.refreshToken == Drawn(w).refresh
               then Extended(w, Sha256(token), Sha256(r.value.refreshToken)) else w;
      Commit(h, process, m)
    case RevokeToken(process, token) => Commit(w, process, Revoke(Begin(w, process), token))
  }

  function Run(w: World, events: seq<Event>): World
    decreases |events|
  {
    if events == [] then w else Step(Run(w, events[..|events| - 1]), events[|events| - 1])
  }

  // ----- the invariant -----

  ghost predicate Placed(w: World) {
    && |w.grants| == |w.sizes|
    && (forall d :: d in w.place ==> w.place[d].family < |w.sizes| && w.place[d].gen < w.sizes[w.place[d].family] && d.token < w.next)
    && (forall d, e :: d in w.place && e in w.place && w.place[d] == w.place[e] ==> d == e)
  }

  ghost predicate Last(w: World, k: Digest)
    requires Placed(w) && k in w.place
  {
    w.place[k].gen + 1 == w.sizes[w.place[k].family]
  }

  /** What one stored refresh record satisfies: it has a successor exactly when it was
      superseded, exactly when it is not the last of its family, and the successor is the
      next generation. */
  ghost predicate RecordOk(w: World, k: Digest, rec: TokenRecord)
    requires Placed(w)
  {
    && k in w.place
    && (rec.successor.Some? <==> rec.supersededAt.Some?)
    && (rec.supersededAt.Some? <==> !Last(w, k))
    && (rec.successor.Some? ==>
          && rec.successor.value in w.place
          && w.place[rec.successor.value] == Place(w.place[k].family, w.place[k].gen + 1))
    && (rec.supersededAt.Some? ==> rec.supersededAt.value <= w.now)
    && rec.expiresAt <= w.now + REFRESH_TTL_MS
    && GrantOk(w.grants[w.place[k].family], rec)
    && (rec.clientId in w.confidential ==> w.sizes[w.place[k].family] == 1)
  }

  ghost predicate GrantOk(g: Grant, rec: TokenRecord) {
    rec.clientId == g.clientId && rec.resource == g.resource && Within(rec.scopes, g.scopes)
  }

  /** `a` is an earlier stored member of the family of `b`. */
  ghost predicate Earlier(w: World, a: Digest, b: Digest) {
    a in w.place && b in w.place && w.place[a].family == w.place[b].family && w.place[a].gen < w.place[b].gen
  }

  ghost predicate Ordered(w: World) {
    forall a, b :: a in w.tables.refresh && b in w.tables.refresh && Earlier(w, a, b) ==>
      w.tables.refresh[a].expiresAt <= w.tables.refresh[b].expiresAt && Within(w.tables.refresh[b].scopes, w.tables.refresh[a].scopes)
  }

  ghost predicate RecentOk(w: World) {
    forall i, k :: i in w.recents && k in w.recents[i] ==> w.recents[i][k].digest == Sha256(w.recents[i][k].token)
  }

  ghost predicate CodesOk(w: World) {
    forall c :: c in w.tables.codes ==> c.token < w.next
  }

  ghost predicate Inv(w: World) {
    && Placed(w)
    && (forall k :: k in w.tables.refresh ==> RecordOk(w, k, w.tables.refresh[k]))
    && Ordered(w)
    && RecentOk(w)
    && CodesOk(w)
  }

  ghost predicate Between(w: World, a: Digest, b: Digest, c: Digest) {
    a in w.tables.refresh && c in w.tables.refresh && Earlier(w, a, b) && Earlier(w, b, c)
  }

  /** The stored members of a family are a contiguous run of generations. */
  ghost predicate Contiguous(w: World) {
    forall a, b, c :: Between(w, a, b, c) ==> b in w.tables.refresh
  }

  ghost predicate Shrunk(small: map<Digest, TokenRecord>, big: map<Digest, TokenRecord>) {
    forall k :: k in small ==> k in big && small[k] == big[k]
  }

  // ----- preservation, one effect at a time -----

  /** Dropping refresh records keeps the invariant; so does drawing tokens nobody uses. */
  lemma DropKeepsInv(w: World, v: World)
    requires Inv(w)
    requires Shrunk(v.tables.refresh, w.tables.refresh)
    requires v.place == w.place && v.sizes == w.sizes && v.grants == w.grants && v.confidential == w.confidential
    requires w.now <= v.now && w.next <= v.next && RecentOk(v) && CodesOk(v)
    ensures Inv(v)
  {
    forall k | k in v.tables.refresh ensures RecordOk(v, k, v.tables.refresh[k]) {
      assert RecordOk(w, k, w.tables.refresh[k]);
    }
    forall a, b | a in v.tables.refresh && b in v.tables.refresh && Earlier(v, a, b)
      ensures v.tables.refresh[a].expiresAt <= v.tables.refresh[b].expiresAt && Within(v.tables.refresh[b].scopes, v.tables.refresh[a].scopes)
    {
      assert Earlier(w, a, b);
    }
  }

  /** `v` is `w` after `first` began a family of its own. */
  ghost predicate Begun(w: World, v: World, first: Digest, rec: TokenRecord, grant: Grant) {
    && Inv(w) && first.token >= w.next && first.token < v.next
    && v.tables.refresh == w.tables.refresh[first := rec]
    && v.place == Founded(w, first, grant).place && v.sizes == w.sizes + [1] && v.grants == w.grants + [grant]
    && v.confidential == w.confidential && v.now == w.now
    && rec.supersededAt.None? && rec.successor.None? && rec.expiresAt == w.now + REFRESH_TTL_MS && GrantOk(grant, rec)
  }

  lemma FoundPlaced(w: World, v: World, first: Digest, rec: TokenRecord, grant: Grant)
    requires Begun(w, v, first, rec, grant)
    ensures Placed(v) && first !in w.place
  {
    assert first !in w.place;
  }

  lemma FoundRecord(w: World, v: World, first: Digest, rec: TokenRecord, grant: Grant, k: Digest)
    requires Begun(w, v, first, rec, grant) && Placed(v) && first !in w.place && k in v.tables.refresh
    ensures RecordOk(v, k, v.tables.refresh[k])
  {
    if k != first {
      assert RecordOk(w, k, w.tables.refresh[k]);
    }
  }

  lemma FoundOrdered(w: World, v: World, first: Digest, rec: TokenRecord, grant: Grant, a: Digest, b: Digest)
    requires Begun(w, v, first, rec, grant) && Placed(v) && first !in w.place
    requires a in v.tables.refresh && b in v.tables.refresh && Earlier(v, a, b)
    ensures v.tables.refresh[a].expiresAt <= v.tables.refresh[b].expiresAt && Within(v.tables.refresh[b].scopes, v.tables.refresh[a].scopes)
  {
    assert a != first && b != first;
    assert Earlier(w, a, b);
  }

  lemma FoundKeepsInv(w: World, v: World, first: Digest, rec: TokenRecord, grant: Grant)
    requires Begun(w, v, first, rec, grant) && RecentOk(v) && CodesOk(v)
    ensures Inv(v)
  {
    FoundPlaced(w, v, first, rec, grant);
    forall k | k in v.tables.refresh ensures RecordOk(v, k, v.tables.refresh[k]) {
      FoundRecord(w, v, first, rec, grant, k);
    }
    assert Ordered(v) by {
      forall a, b | a in v.tables.refresh && b in v.tables.refresh && Earlier(v, a, b)
        ensures v.tables.refresh[a].expiresAt <= v.tables.refresh[b].expiresAt && Within(v.tables.refresh[b].scopes, v.tables.refresh[a].scopes)
      {
        FoundOrdered(w, v, first, rec, grant, a, b);
      }
    }
  }

  /** `v` is `w` after `parent` was superseded by `child`. */
  ghost predicate Rotated(w: World, v: World, parent: Digest, child: Digest, next: seq<string>) {
    && Inv(w) && parent in w.tables.refresh && child.token >= w.next && child.token < v.next
    && w.tables.refresh[parent].supersededAt.None?
    && w.tables.refresh[parent].clientId !in w.confidential && Within(next, w.tables.refresh[parent].scopes)
    && v.tables.refresh == RotatedRefresh(w, parent, child, next)
    && v.place == Extended(w, parent, child).place && v.sizes == Extended(w, parent, child).sizes
    && v.grants == w.grants && v.confidential == w.confidential && v.now == w.now
  }

  function RotatedRefresh(w: World, parent: Digest, child: Digest, next: seq<string>): map<Digest, TokenRecord>
    requires parent in w.tables.refresh
  {
    var rec := w.tables.refresh[parent];
    w.tables.refresh
    [parent := rec.(supersededAt := Some(w.now), expiresAt := w.now + REFRESH_TTL_MS, scopes := next, successor := Some(child))]
    [child := RefreshRecord(rec.clientId, next, rec.resource, rec.subject, w.now)]
  }

  lemma RotatePlaced(w: World, v: World, parent: Digest, child: Digest, next: seq<string>)
    requires Rotated(w, v, parent, child, next)
    ensures Placed(v) && child !in w.place && parent in w.place && Last(w, parent)
  {
    assert RecordOk(w, parent, w.tables.refresh[parent]);
  }

  lemma RotateRecord(w: World, v: World, parent: Digest, child: Digest, next: seq<string>, k: Digest)
    requires Rotated(w, v, parent, child, next) && k in v.tables.refresh
    ensures Placed(v) && RecordOk(v, k, v.tables.refresh[k])
  {
    RotatePlaced(w, v, parent, child, next);
    assert RecordOk(w, parent, w.tables.refresh[parent]);
    if k != parent && k != child {
      assert RecordOk(w, k, w.tables.refresh[k]);
    }
  }

  /** The new member is the last, expires no earlier and has no more scopes than any other. */
  lemma RotateNewest(w: World, v: World, parent: Digest, child: Digest, next: seq<string>, a: Digest)
    requires Rotated(w, v, parent, child, next) && a in w.tables.refresh && a in w.place && parent in w.place
    requires w.place[a].family == w.place[parent].family
    ensures w.tables.refresh[a].expiresAt <= w.now + REFRESH_TTL_MS && Within(next, w.tables.refresh[a].scopes)
  {
    assert RecordOk(w, a, w.tables.refresh[a]) && RecordOk(w, parent, w.tables.refresh[parent]);
    if a != parent {
      assert w.place[a] != w.place[parent];
      assert Earlier(w, a, parent);
    }
  }

  lemma RotateOrdered(w: World, v: World, parent: Digest, child: Digest, next: seq<string>, a: Digest, b: Digest)
    requires Rotated(w, v, parent, child, next)
    requires a in v.tables.refresh && b in v.tables.refresh && Earlier(v, a, b)
    ensures v.tables.refresh[a].expiresAt <= v.tables.refresh[b].expiresAt
    ensures Within(v.tables.refresh[b].scopes, v.tables.refresh[a].scopes)
  {
    RotatePlaced(w, v, parent, child, next);
    assert b != child ==> a != child && a != parent;
    if b == child {
      if a != parent {
        RotateNewest(w, v, parent, child, next, a);
      }
    } else {
      assert Earlier(w, a, b);
      if b == parent {
        RotateNewest(w, v, parent, child, next, a);
      }
    }
  }

  lemma RotateKeepsInv(w: World, v: World, parent: Digest, child: Digest, next: seq<string>)
    requires Rotated(w, v, parent, child, next) && RecentOk(v) && CodesOk(v)
    ensures Inv(v)
  {
    RotatePlaced(w, v, parent, child, next);
    forall k | k in v.tables.refresh ensures RecordOk(v, k, v.tables.refresh[k]) {
      RotateRecord(w, v, parent, child, next, k);
    }
    forall a, b | a in v.tables.refresh && b in v.tables.refresh && Earlier(v, a, b)
      ensures v.tables.refresh[a].expiresAt <= v.tables.refresh[b].expiresAt && Within(v.tables.refresh[b].scopes, v.tables.refresh[a].scopes)
    {
      RotateOrdered(w, v, parent, child, next, a, b);
    }
  }

  lemma RenewRecord(w: World, v: World, key: Digest, next: seq<string>, k: Digest)
    requires Inv(w) && Renewed(w, v, key, next) && k in v.tables.refresh
    ensures Placed(v) && RecordOk(v, k, v.tables.refresh[k])
  {
    assert RecordOk(w, k, w.tables.refresh[k]);
  }

  lemma RenewOrdered(w: World, v: World, key: Digest, next: seq<string>, a: Digest, b: Digest)
    requires Inv(w) && Renewed(w, v, key, next)
    requires a in v.tables.refresh && b in v.tables.refresh && Earlier(v, a, b)
    ensures v.tables.refresh[a].expiresAt <= v.tables.refresh[b].expiresAt && Within(v.tables.refresh[b].scopes, v.tables.refresh[a].scopes)
  {
    assert RecordOk(w, key, w.tables.refresh[key]);
    assert a != key && b != key;
    assert Earlier(w, a, b);
  }

  lemma RenewKeepsInv(w: World, v: World, key: Digest, next: seq<string>)
    requires Inv(w) && Renewed(w, v, key, next) && RecentOk(v) && CodesOk(v)
    ensures Inv(v)
  {
    forall k | k in v.tables.refresh ensures RecordOk(v, k, v.tables.refresh[k]) {
      RenewRecord(w, v, key, next, k);
    }
    assert Ordered(v) by {
      forall a, b | a in v.tables.refresh && b in v.tables.refresh && Earlier(v, a, b)
        ensures v.tables.refresh[a].expiresAt <= v.tables.refresh[b].expiresAt && Within(v.tables.refresh[b].scopes, v.tables.refresh[a].scopes)
      {
        RenewOrdered(w, v, key, next, a, b);
      }
    }
  }

  // ----- every step keeps the invariant -----

  /** The world as an operation of `process` sees it once the file is loaded and pruned. */
  function Loaded(w: World, process: nat): World {
    var m := Begin(w, process);
    w.(tables := m.tables, recents := w.recents[process := m.recent])
  }

  /** The world when the operation has acted, before the final prune. */
  function Applied(h: World, process: nat, m: Memory): World {
    h.(tables := m.tables, recents := h.recents[process := m.recent], next := h.next + 2)
  }

  lemma LoadedInv(w: World, process: nat)
    requires Inv(w)
    ensures Inv(Loaded(w, process))
  {
    var v := Loaded(w, process);
    assert RecentOk(v) && CodesOk(v);
    DropKeepsInv(w, v);
  }

  lemma CommitInv(h: World, process: nat, m: Memory)
    requires Inv(Applied(h, process, m))
    ensures Inv(Commit(h, process, m))
  {
    var v, c := Applied(h, process, m), Commit(h, process, m);
    forall i, k | i in c.recents && k in c.recents[i] ensures c.recents[i][k].digest == Sha256(c.recents[i][k].token) {
      assert i in v.recents && k in v.recents[i] && c.recents[i][k] == v.recents[i][k];
    }
    DropKeepsInv(v, c);
  }

  /** An operation that leaves the refresh table as it was, or smaller, keeps the invariant. */
  lemma QuietInv(w: World, process: nat, m: Memory)
    requires Inv(w)
    requires Shrunk(m.tables.refresh, Begin(w, process).tables.refresh)
    requires forall k :: k in m.recent ==> m.recent[k].digest == Sha256(m.recent[k].token)
    requires forall c :: c in m.tables.codes ==> c.token <= w.next
    ensures Inv(Commit(w, process, m))
  {
    LoadedInv(w, process);
    DropKeepsInv(Loaded(w, process), Applied(w, process, m));
    CommitInv(w, process, m);
  }

  lemma BeginFacts(w: World, process: nat)
    requires Inv(w)
    ensures forall k :: k in Begin(w, process).recent ==> Begin(w, process).recent[k].digest == Sha256(Begin(w, process).recent[k].token)
    ensures forall c :: c in Begin(w, process).tables.codes ==> c.token < w.next
    ensures Shrunk(Begin(w, process).tables.refresh, w.tables.refresh)
  {}

  lemma RedeemAdds(b: Memory, e: Event, now: int, drawn: Draw)
    requires e.RedeemCode? && Redeem(b, e.clientId, e.code, e.codeRedirect, e.codeResource, "owner", now, drawn).1.Ok?
    ensures var (m, r) := Redeem(b, e.clientId, e.code, e.codeRedirect, e.codeResource, "owner", now, drawn);
            && Sha256(e.code) in b.tables.codes && r.value.refreshToken == drawn.refresh
            && m.recent == b.recent && m.tables.codes.Keys <= b.tables.codes.Keys
            && var code := b.tables.codes[Sha256(e.code)];
               m.tables.refresh == b.tables.refresh[Sha256(drawn.refresh) := RefreshRecord(code.clientId, code.scopes, code.resource, "owner", now)]
  {
  }

  /** A redeemed code founds a family: the history it commits with, and what the operation added. */
  lemma RedeemFounds(w: World, e: Event) returns (h: World)
    requires Inv(w) && e.RedeemCode? && RedeemOutcome(w, e).1.Ok?
    ensures var (m, r) := RedeemOutcome(w, e);
            var first := Sha256(r.value.refreshToken);
            && Step(w, e) == Commit(h, e.process, m) && h.now == w.now
            && Inv(Applied(h, e.process, m))
            && first.token >= w.next && first in m.tables.refresh
            && m.tables.refresh == Begin(w, e.process).tables.refresh[first := m.tables.refresh[first]]
            && h.place == w.place[first := Place(|w.sizes|, 0)]
  {
    var (m, r) := RedeemOutcome(w, e);
    BeginFacts(w, e.process);
    var code := Begin(w, e.process).tables.codes[Sha256(e.code)];
    var grant := Grant(code.clientId, code.scopes, code.resource);
    var first := Sha256(r.value.refreshToken);
    h := Founded(w, first, grant);
    RedeemAdds(Begin(w, e.process), e, w.now, Drawn(w));
    FoundingApplied(w, e.process, first, m.tables.refresh[first], grant, m);
    StepOfRedeem(w, e, grant);
  }

  lemma StepOfRedeem(w: World, e: Event, grant: Grant)
    requires e.RedeemCode? && RedeemOutcome(w, e).1.Ok? && Sha256(e.code) in Begin(w, e.process).tables.codes
    requires var code := Begin(w, e.process).tables.codes[Sha256(e.code)];
             grant == Grant(code.clientId, code.scopes, code.resource)
    ensures Step(w, e) == Commit(Founded(w, Sha256(RedeemOutcome(w, e).1.value.refreshToken), grant), e.process, RedeemOutcome(w, e).0)
  {
  }

  lemma FoundingApplied(w: World, process: nat, first: Digest, rec: TokenRecord, grant: Grant, m: Memory)
    requires Inv(w) && CacheOk(m) && first == Sha256(Drawn(w).refresh)
    requires m.tables.refresh == Begin(w, process).tables.refresh[first := rec]
    requires forall c :: c in m.tables.codes ==> c.token < w.next
    requires rec.supersededAt.None? && rec.successor.None? && rec.expiresAt == w.now + REFRESH_TTL_MS && GrantOk(grant, rec)
    ensures Inv(Applied(Founded(w, first, grant), process, m))
  {
    LoadedInv(w, process);
    var v := Applied(Founded(w, first, grant), process, m);
    assert RecentOk(v);
    FoundKeepsInv(Loaded(w, process), v, first, rec, grant);
  }

  lemma RedeemInv(w: World, e: Event)
    requires Inv(w) && e.RedeemCode?
    ensures Inv(Step(w, e))
  {
    var (m, r) := RedeemOutcome(w, e);
    if r.Err? {
      BeginFacts(w, e.process);
      QuietInv(w, e.process, m);
    } else {
      var h := RedeemFounds(w, e);
      CommitInv(h, e.process, m);
    }
  }

  /** A presented token `key` is answered without issuing a new one: the refresh table stays,
      or loses what a walk from `key` reaches. */
  ghost predicate Quiet(b: Memory, m: Memory, key: Digest) {
    && (|| m.tables.refresh == b.tables.refresh
        || (key in b.tables.refresh && m.tables.refresh == b.tables.refresh - Trail(b.tables.refresh, key)))
    && (forall k :: k in m.recent ==> k in b.recent && m.recent[k] == b.recent[k])
    && m.tables.codes == b.tables.codes
  }

  ghost predicate Rotates(b: Memory, q: RefreshRequest, now: int, drawn: Draw, next: seq<string>) {
    var key := Sha256(q.token);
    && key in b.tables.refresh && b.tables.refresh[key].supersededAt.None? && q.publicClient
    && b.tables.refresh[key].clientId == q.clientId
    && Within(next, b.tables.refresh[key].scopes)
    && Refresh(b, q, now, drawn) == Rotate(b, q, next, now, drawn)
  }

  ghost predicate Renews(b: Memory, q: RefreshRequest, now: int, drawn: Draw, next: seq<string>) {
    var key := Sha256(q.token);
    && key in b.tables.refresh && !q.publicClient && b.tables.refresh[key].clientId == q.clientId
    && Within(next, b.tables.refresh[key].scopes)
    && Refresh(b, q, now, drawn) == Renew(b, q, next, now, drawn)
  }

  ghost predicate CacheOk(b: Memory) {
    forall k :: k in b.recent ==> b.recent[k].digest == Sha256(b.recent[k].token)
  }

  lemma RetryIsQuiet(b: Memory, q: RefreshRequest, next: seq<string>, now: int, drawn: Draw)
    requires CacheOk(b) && Sha256(q.token) in b.tables.refresh && b.tables.refresh[Sha256(q.token)].supersededAt.Some?
    ensures var (m, r) := Retry(b, q, next, now, drawn);
            && Quiet(b, m, Sha256(q.token))
            && (r.Ok? ==> b.tables.refresh[Sha256(q.token)].successor == Some(Sha256(r.value.refreshToken)))
  {
  }

  /** A presented refresh token is rotated, renewed in place, or answered quietly. */
  lemma RefreshCases(b: Memory, q: RefreshRequest, now: int, drawn: Draw)
    requires CacheOk(b)
    ensures var (m, r) := Refresh(b, q, now, drawn);
            || (r.Ok? && Rotates(b, q, now, drawn, r.value.scopes))
            || (r.Ok? && Renews(b, q, now, drawn, r.value.scopes))
            || (Quiet(b, m, Sha256(q.token)) && (r.Ok? ==> (Sha256(q.token) in b.tables.refresh
                  && b.tables.refresh[Sha256(q.token)].successor == Some(Sha256(r.value.refreshToken)))))
  {
    var key := Sha256(q.token);
    if key in b.tables.refresh {
      var next := NextScopes(q.scopes, b.tables.refresh[key].scopes);
      if next.Ok? && b.tables.refresh[key].supersededAt.Some? {
        RetryIsQuiet(b, q, next.value, now, drawn);
      }
    }
  }

  lemma AppliedSame(w: World, process: nat, key: Digest, child: Digest, m: Memory)
    ensures Applied(Extended(Loaded(w, process), key, child), process, m) == Applied(Extended(w, key, child), process, m)
  {
    assert w.recents[process := Begin(w, process).recent][process := m.recent] == w.recents[process := m.recent];
  }

  /** What presenting a refresh token did to the tables. */
  datatype Effect = Rotation(child: Digest, next: seq<string>) | Renewal(scopes: seq<string>) | Silence

  /** `v` is `l` after a confidential client renewed `key` in place. */
  ghost predicate Renewed(l: World, v: World, key: Digest, next: seq<string>) {
    && key in l.tables.refresh && l.tables.refresh[key].clientId in l.confidential && Within(next, l.tables.refresh[key].scopes)
    && v.tables.refresh == l.tables.refresh
         [key := l.tables.refresh[key].(scopes := next, expiresAt := l.now + REFRESH_TTL_MS, supersededAt := None, successor := None)]
    && SameHistory(l, v)
  }

  ghost predicate Silenced(l: World, v: World, key: Digest) {
    && (|| v.tables.refresh == l.tables.refresh
        || (key in l.tables.refresh && v.tables.refresh == l.tables.refresh - Trail(l.tables.refresh, key)))
    && SameHistory(l, v)
  }

  ghost predicate SameHistory(l: World, v: World) {
    v.place == l.place && v.sizes == l.sizes && v.grants == l.grants && v.confidential == l.confidential && v.now == l.now && l.next <= v.next
  }

  ghost predicate EffectIs(l: World, v: World, key: Digest, effect: Effect) {
    && RecentOk(v) && CodesOk(v)
    && match effect
       case Rotation(child, next) => Rotated(l, v, key, child, next)
       case Renewal(next) => Renewed(l, v, key, next)
       case Silence => Silenced(l, v, key)
  }

  /** Rotation as `Rotate` writes it is the abstract step `Rotated`. */
  lemma RotationApplied(l: World, process: nat, b: Memory, q: RefreshRequest, next: seq<string>, m: Memory)
    requires Inv(l) && l.tables == b.tables && CacheOk(b)
    requires Sha256(q.token) in b.tables.refresh && b.tables.refresh[Sha256(q.token)].supersededAt.None?
    requires q.clientId == b.tables.refresh[Sha256(q.token)].clientId && q.clientId !in l.confidential
    requires Within(next, b.tables.refresh[Sha256(q.token)].scopes)
    requires m == Rotate(b, q, next, l.now, Drawn(l)).0
    ensures var key, child := Sha256(q.token), Sha256(Drawn(l).refresh);
            EffectIs(l, Applied(Extended(l, key, child), process, m), key, Rotation(child, next))
  {
    assert RecordOk(l, Sha256(q.token), b.tables.refresh[Sha256(q.token)]);
  }

  lemma RenewalApplied(l: World, process: nat, b: Memory, q: RefreshRequest, next: seq<string>, m: Memory)
    requires Inv(l) && l.tables == b.tables && CacheOk(b)
    requires Sha256(q.token) in b.tables.refresh
    requires q.clientId == b.tables.refresh[Sha256(q.token)].clientId && q.clientId in l.confidential
    requires Within(next, b.tables.refresh[Sha256(q.token)].scopes)
    requires m == Renew(b, q, next, l.now, Drawn(l)).0
    ensures EffectIs(l, Applied(l, process, m), Sha256(q.token), Renewal(next))
  {
  }

  lemma SilenceApplied(l: World, process: nat, b: Memory, key: Digest, m: Memory)
    requires Inv(l) && l.tables == b.tables && CacheOk(b) && Quiet(b, m, key)
    ensures EffectIs(l, Applied(l, process, m), key, Silence)
  {
  }

  lemma AppliedLoaded(w: World, process: nat, m: Memory)
    ensures Applied(Loaded(w, process), process, m) == Applied(w, process, m)
  {
    assert w.recents[process := Begin(w, process).recent][process := m.recent] == w.recents[process := m.recent];
  }

  /** Every refresh rotates, renews in place, or adds nothing; `h` is the history it commits with. */
  lemma RefreshEffect(w: World, e: Event) returns (effect: Effect, h: World, m: Memory)
    requires Inv(w) && e.RefreshToken?
    ensures Step(w, e) == Commit(h, e.process, m) && h.now == w.now
    ensures EffectIs(Loaded(w, e.process), Applied(h, e.process, m), Sha256(e.token), effect)
  {
    BeginFacts(w, e.process);
    RefreshCases(Begin(w, e.process), RequestOf(w, e), w.now, Drawn(w));
    m := RefreshOutcome(w, e).0;
    var r := RefreshOutcome(w, e).1;
    if r.Ok? && Rotates(Begin(w, e.process), RequestOf(w, e), w.now, Drawn(w), r.value.scopes) {
      var child := Sha256(Drawn(w).refresh);
      effect, h := Rotation(child, r.value.scopes), Extended(w, Sha256(e.token), child);
      RotationEffect(w, e.process, RequestOf(w, e), r.value.scopes, m);
      StepWithRotation(w, e);
    } else if r.Ok? && Renews(Begin(w, e.process), RequestOf(w, e), w.now, Drawn(w), r.value.scopes) {
      effect, h := Renewal(r.value.scopes), w;
      RenewalEffect(w, e.process, RequestOf(w, e), r.value.scopes, m);
      StepWithoutRotation(w, e);
    } else {
      effect, h := Silence, w;
      SilenceEffect(w, e.process, Sha256(e.token), m, r);
      StepWithoutRotation(w, e);
    }
  }

  lemma RotationEffect(w: World, process: nat, q: RefreshRequest, next: seq<string>, m: Memory)
    requires Inv(w) && CacheOk(Begin(w, process)) && q.clientId !in w.confidential
    requires var t, key := Begin(w, process).tables.refresh, Sha256(q.token);
             key in t && t[key].supersededAt.None? && t[key].clientId == q.clientId && Within(next, t[key].scopes)
    requires m == Rotate(Begin(w, process), q, next, w.now, Drawn(w)).0
    ensures var key, child := Sha256(q.token), Sha256(Drawn(w).refresh);
            EffectIs(Loaded(w, process), Applied(Extended(w, key, child), process, m), key, Rotation(child, next))
  {
    assert Inv(Loaded(w, process)) && Loaded(w, process).tables == Begin(w, process).tables by {
      LoadedInv(w, process);
    }
    assert Drawn(Loaded(w, process)) == Drawn(w) && Loaded(w, process).now == w.now;
    RotationApplied(Loaded(w, process), process, Begin(w, process), q, next, m);
    AppliedSame(w, process, Sha256(q.token), Sha256(Drawn(w).refresh), m);
  }

  lemma RenewalEffect(w: World, process: nat, q: RefreshRequest, next: seq<string>, m: Memory)
    requires Inv(w) && CacheOk(Begin(w, process)) && q.clientId in w.confidential
    requires var t, key := Begin(w, process).tables.refresh, Sha256(q.token);
             key in t && t[key].clientId == q.clientId && Within(next, t[key].scopes)
    requires m == Renew(Begin(w, process), q, next, w.now, Drawn(w)).0
    ensures EffectIs(Loaded(w, process), Applied(w, process, m), Sha256(q.token), Renewal(next))
    ensures q.token < w.next
  {
    LoadedInv(w, process);
    KnownToken(Loaded(w, process), Sha256(q.token), q.token);
    RenewalApplied(Loaded(w, process), process, Begin(w, process), q, next, m);
    AppliedLoaded(w, process, m);
  }

  lemma SilenceEffect(w: World, process: nat, key: Digest, m: Memory, r: Result<TokenPair, OAuthError>)
    requires Inv(w) && CacheOk(Begin(w, process)) && Quiet(Begin(w, process), m, key)
    requires var t := Begin(w, process).tables.refresh;
             r.Ok? ==> key in t && t[key].successor == Some(Sha256(r.value.refreshToken))
    ensures EffectIs(Loaded(w, process), Applied(w, process, m), key, Silence)
    ensures r.Ok? ==> r.value.refreshToken < w.next
  {
    LoadedInv(w, process);
    SilenceApplied(Loaded(w, process), process, Begin(w, process), key, m);
    AppliedLoaded(w, process, m);
    if r.Ok? {
      KnownToken(Loaded(w, process), key, r.value.refreshToken);
    }
  }

  lemma StepWithRotation(w: World, e: Event)
    requires e.RefreshToken?
    requires RefreshOutcome(w, e).1.Ok? && RefreshOutcome(w, e).1.value.refreshToken == Drawn(w).refresh
    ensures Step(w, e) == Commit(Extended(w, Sha256(e.token), Sha256(Drawn(w).refresh)), e.process, RefreshOutcome(w, e).0)
  {
  }

  /** A token that is stored, or is the successor of a stored one, is not the one being drawn. */
  lemma KnownToken(l: World, key: Digest, token: Token)
    requires Inv(l) && key in l.tables.refresh
    requires token == key.token || l.tables.refresh[key].successor == Some(Sha256(token))
    ensures token < l.next
  {
    assert RecordOk(l, key, l.tables.refresh[key]);
  }

  lemma StepWithoutRotation(w: World, e: Event)
    requires e.RefreshToken?
    requires RefreshOutcome(w, e).1.Ok? ==> RefreshOutcome(w, e).1.value.refreshToken != Drawn(w).refresh
    ensures Step(w, e) == Commit(w, e.process, RefreshOutcome(w, e).0)
  {
  }

  lemma EffectInv(l: World, v: World, key: Digest, effect: Effect)
    requires Inv(l) && EffectIs(l, v, key, effect)
    ensures Inv(v)
  {
    match effect
    case Rotation(child, next) => RotateKeepsInv(l, v, key, child, next);
    case Renewal(next) => RenewKeepsInv(l, v, key, next);
    case Silence => DropKeepsInv(l, v);
  }

  lemma RefreshInv(w: World, e: Event)
    requires Inv(w) && e.RefreshToken?
    ensures Inv(Step(w, e))
  {
    var effect, h, m := RefreshEffect(w, e);
    LoadedInv(w, e.process);
    EffectInv(Loaded(w, e.process), Applied(h, e.process, m), Sha256(e.token), effect);
    CommitInv(h, e.process, m);
  }

  lemma AuthorizeInv(w: World, e: Event)
    requires Inv(w) && e.Authorize?
    ensures Inv(Commit(w, e.process, AfterAuthorize(w, e)))
  {
    BeginFacts(w, e.process);
    QuietInv(w, e.process, AfterAuthorize(w, e));
  }

  lemma RevokeInv(w: World, e: Event)
    requires Inv(w) && e.RevokeToken?
    ensures Inv(Commit(w, e.process, Revoke(Begin(w, e.process), e.token)))
  {
    BeginFacts(w, e.process);
    QuietInv(w, e.process, Revoke(Begin(w, e.process), e.token));
  }

  lemma PauseInv(w: World, e: Event)
    requires Inv(w) && (e.Tick? || e.Restart?)
    ensures Inv(Step(w, e))
  {
    DropKeepsInv(w, Step(w, e));
  }

  lemma StepInv(w: World, e: Event)
    requires Inv(w)
    ensures Inv(Step(w, e))
  {
    match e
    case Tick(_) => PauseInv(w, e);
    case Restart(_) => PauseInv(w, e);
    case Authorize(_, _, _, _, _) => AuthorizeInv(w, e);
    case RedeemCode(_, _, _, _, _) => RedeemInv(w, e);
    case RefreshToken(_, _, _, _, _) => RefreshInv(w, e);
    case RevokeToken(_, _) => RevokeInv(w, e);
  }

  lemma {:induction false} RunInv(confidential: set<string>, events: seq<Event>)
    ensures Inv(Run(Init(confidential), events))
    decreases |events|
  {
    if events == [] {
    } else {
      RunInv(confidential, events[..|events| - 1]);
      StepInv(Run(Init(confidential), events[..|events| - 1]), events[|events| - 1]);
    }
  }
}
