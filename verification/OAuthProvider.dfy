/** The provider object: in-memory maps over a durable store file. Each public operation loads
    and prunes, acts on the maps in place, prunes and writes the file back. */
module OAuthProvider {
  import opened Basics
  import opened RefreshTokens

  const MAX_CLIENTS := 64
  const DISPOSABLE_CLIENT_NAMES := {"busy-probe", "restart-proof", "shell-mcp-probe", "shell-mcp-smoke", "shell-mcp-stress"}

  datatype ClientInfo = ClientInfo(name: string, authMethod: string)

  class StoreFile {
    var tables: Tables
  }

  class LocalOAuthProvider {
    const store: StoreFile
    const ownerLogin: string
    var clients: map<string, ClientInfo>
    var access: map<Digest, TokenRecord>
    var refresh: map<Digest, TokenRecord>
    var codes: map<Digest, CodeRecord>
    var recentRefreshSuccessors: map<Digest, RecentSuccessor>

    constructor (store: StoreFile, ownerLogin: string)
      ensures this.store == store && this.ownerLogin == ownerLogin && recentRefreshSuccessors == map[] && clients == map[]
    {
      this.store := store;
      this.ownerLogin := ownerLogin;
      clients, access, refresh, codes, recentRefreshSuccessors := map[], map[], map[], map[], map[];
    }

    function View(): Memory
      reads this
    {
      Memory(Tables(access, refresh, codes), recentRefreshSuccessors)
    }

    method PruneExpired(now: int)
      modifies this`access, this`refresh, this`codes, this`recentRefreshSuccessors
      ensures View() == Prune(old(View()), now)
    {
      recentRefreshSuccessors := map k | k in recentRefreshSuccessors
        && now - recentRefreshSuccessors[k].issuedAt <= REFRESH_REUSE_GRACE_MS && k in refresh :: recentRefreshSuccessors[k];
      codes := map k | k in codes && codes[k].expiresAt > now :: codes[k];
      access := map k | k in access && access[k].expiresAt > now :: access[k];
      refresh := map k | k in refresh && refresh[k].expiresAt > now :: refresh[k];
    }

    method Load(now: int)
      modifies this`access, this`refresh, this`codes, this`recentRefreshSuccessors
      ensures View() == Prune(Memory(store.tables, old(recentRefreshSuccessors)), now)
    {
      access, refresh, codes := store.tables.access, store.tables.refresh, store.tables.codes;
      PruneExpired(now);
    }

    method Persist(now: int)
      modifies this`access, this`refresh, this`codes, this`recentRefreshSuccessors, store
      ensures View() == Prune(old(View()), now) && store.tables == View().tables
    {
      PruneExpired(now);
      store.tables := Tables(access, refresh, codes);
    }

    /** Follow successors from `startKey`, deleting each record and its cache entry. */
    method RevokeRefreshFamily(startKey: Digest)
      modifies this`refresh, this`recentRefreshSuccessors
      ensures View() == RevokeFamily(old(View()), startKey)
    {
      var seen: set<Digest> := {};
      var key := Some(startKey);
      ghost var before := refresh;
      while key.Some? && key.value !in seen
        invariant refresh == before - seen
        invariant recentRefreshSuccessors == old(recentRefreshSuccessors) - seen
        invariant key.Some? ==> Trail(before, startKey) == seen + Trail(before - seen, key.value)
        invariant key.None? ==> Trail(before, startKey) == seen
        invariant key.Some? && key.value in seen ==> Trail(before - seen, key.value) == {key.value}
        decreases if key.Some? && key.value !in seen then 1 else 0, before.Keys - seen, if key.Some? && key.value in before then 1 else 0
      {
        var current := key.value;
        var next := if current in refresh then refresh[current].successor else None;
        assert (before - seen) - {current} == before - (seen + {current});
        if next.None? {
          assert Trail(before - seen, current) == {current};
        }
        seen := seen + {current};
        refresh := refresh - {current};
        recentRefreshSuccessors := recentRefreshSuccessors - {current};
        key := next;
      }
    }

    /** The answer to a refresh request, on the loaded and pruned maps. */
    method AnswerRefresh(q: RefreshRequest, now: int, drawn: Draw) returns (r: Result<TokenPair, OAuthError>)
      modifies this`access, this`refresh, this`recentRefreshSuccessors
      ensures (View(), r) == Refresh(old(View()), q, now, drawn)
    {
      var key := Sha256(q.token);
      if key !in refresh || refresh[key].clientId != q.clientId || refresh[key].expiresAt <= now {
        return Err(InvalidGrant);
      }
      var rec := refresh[key];
      if q.resource.Some? && q.resource.value != rec.resource {
        return Err(InvalidTarget);
      }
      var next := NextScopes(q.scopes, rec.scopes);
      if next.Err? {
        return Err(next.error);
      }
      var issued := AccessRecord(q.clientId, next.value, rec.resource, rec.subject, now);
      if !q.publicClient {
        refresh := refresh[key := rec.(scopes := next.value, expiresAt := now + REFRESH_TTL_MS, supersededAt := None, successor := None)];
        access := access[Sha256(drawn.access) := issued];
        return Ok(TokenPair(drawn.access, q.token, next.value));
      }
      if rec.supersededAt.Some? {
        r := AnswerRetry(q, next.value, now, drawn);
        return;
      }
      var child := Sha256(drawn.refresh);
      refresh := refresh[key := rec.(supersededAt := Some(now), expiresAt := now + REFRESH_TTL_MS, scopes := next.value, successor := Some(child))];
      access := access[Sha256(drawn.access) := issued];
      refresh := refresh[child := RefreshRecord(q.clientId, next.value, rec.resource, rec.subject, now)];
      recentRefreshSuccessors := recentRefreshSuccessors[key := RecentSuccessor(drawn.refresh, child, now)];
      return Ok(TokenPair(drawn.access, drawn.refresh, next.value));
    }

    method AnswerRetry(q: RefreshRequest, next: seq<string>, now: int, drawn: Draw) returns (r: Result<TokenPair, OAuthError>)
      requires Sha256(q.token) in refresh && refresh[Sha256(q.token)].supersededAt.Some?
      modifies this`access, this`refresh, this`recentRefreshSuccessors
      ensures (View(), r) == Retry(old(View()), q, next, now, drawn)
    {
      var key := Sha256(q.token);
      var rec := refresh[key];
      if now - rec.supersededAt.value > REFRESH_REUSE_GRACE_MS {
        RevokeRefreshFamily(key);
        return Err(InvalidGrant);
      }
      if rec.successor.Some? && rec.successor.value in refresh && refresh[rec.successor.value].supersededAt.Some? {
        return Err(InvalidGrant);
      }
      if key in recentRefreshSuccessors && Some(recentRefreshSuccessors[key].digest) == rec.successor && rec.successor.value in refresh {
        if next != refresh[rec.successor.value].scopes {
          return Err(InvalidScope);
        }
        access := access[Sha256(drawn.access) := AccessRecord(q.clientId, next, rec.resource, rec.subject, now)];
        return Ok(TokenPair(drawn.access, recentRefreshSuccessors[key].token, next));
      }
      return Err(InvalidGrant);
    }

    method ExchangeRefreshToken(q: RefreshRequest, now: int, drawn: Draw) returns (r: Result<TokenPair, OAuthError>)
      modifies this`access, this`refresh, this`codes, this`recentRefreshSuccessors, store
      ensures var begun := Prune(Memory(old(store.tables), old(recentRefreshSuccessors)), now);
              var (m, answer) := Refresh(begun, q, now, drawn);
              r == answer && View() == Prune(m, now) && store.tables == View().tables
    {
      Load(now);
      r := AnswerRefresh(q, now, drawn);
      Persist(now);
    }

    method GrantCode(clientId: string, redirectUri: string, scopes: seq<string>, resource: Option<string>, expected: string, code: Token, now: int)
      returns (r: Result<Token, OAuthError>)
      modifies this`access, this`refresh, this`codes, this`recentRefreshSuccessors, store
      ensures var begun := Prune(Memory(old(store.tables), old(recentRefreshSuccessors)), now);
              var (m, answer) := Authorize(begun, clientId, redirectUri, scopes, resource, expected, code, now);
              r == answer && View() == Prune(m, now) && store.tables == View().tables
    {
      Load(now);
      var granted := ValidateScopes(scopes);
      if resource.Some? && resource.value != expected {
        r := Err(InvalidTarget);
      } else if granted.Err? {
        r := Err(granted.error);
      } else {
        codes := codes[Sha256(code) := CodeRecord(clientId, redirectUri, granted.value, expected, now + CODE_TTL_MS)];
        r := Ok(code);
      }
      Persist(now);
    }

    method ExchangeAuthorizationCode(clientId: string, code: Token, redirectUri: Option<string>, resource: Option<string>, now: int, drawn: Draw)
      returns (r: Result<TokenPair, OAuthError>)
      modifies this`access, this`refresh, this`codes, this`recentRefreshSuccessors, store
      ensures var begun := Prune(Memory(old(store.tables), old(recentRefreshSuccessors)), now);
              var (m, answer) := Redeem(begun, clientId, code, redirectUri, resource, ownerLogin, now, drawn);
              r == answer && View() == Prune(m, now) && store.tables == View().tables
    {
      Load(now);
      var key := Sha256(code);
      if key !in codes || codes[key].clientId != clientId || codes[key].expiresAt <= now {
        r := Err(InvalidGrant);
      } else if redirectUri.Some? && redirectUri.value != codes[key].redirectUri {
        r := Err(InvalidGrant);
      } else if resource.Some? && resource.value != codes[key].resource {
        r := Err(InvalidTarget);
      } else {
        var rec := codes[key];
        codes := codes - {key};
        access := access[Sha256(drawn.access) := AccessRecord(clientId, rec.scopes, rec.resource, ownerLogin, now)];
        refresh := refresh[Sha256(drawn.refresh) := RefreshRecord(clientId, rec.scopes, rec.resource, ownerLogin, now)];
        r := Ok(TokenPair(drawn.access, drawn.refresh, rec.scopes));
      }
      Persist(now);
    }

    method RevokeOne(token: Token, now: int)
      modifies this`access, this`refresh, this`codes, this`recentRefreshSuccessors, store
      ensures var begun := Prune(Memory(old(store.tables), old(recentRefreshSuccessors)), now);
              View() == Prune(Revoke(begun, token), now) && store.tables == View().tables
    {
      Load(now);
      access := access - {Sha256(token)};
      refresh := refresh - {Sha256(token)};
      Persist(now);
    }

    predicate Referenced(clientId: string)
      reads this`codes, this`access, this`refresh
    {
      || (exists k :: k in codes && codes[k].clientId == clientId)
      || (exists k :: k in access && access[k].clientId == clientId)
      || (exists k :: k in refresh && refresh[k].clientId == clientId)
    }

    predicate Evictable(clientId: string)
      reads this
    {
      clientId in clients && !Referenced(clientId) && clients[clientId].name in DISPOSABLE_CLIENT_NAMES
    }

    /** Compacts only disposable registrations that nothing refers to, and stops as soon as the
        soft target is met or nothing more may go. */
    method MakeClientRoom()
      modifies this`clients
      ensures forall id :: id in clients ==> id in old(clients) && clients[id] == old(clients)[id]
      ensures forall id :: id in old(clients) && id !in clients ==>
                && old(clients)[id].name in DISPOSABLE_CLIENT_NAMES
                && (forall k :: k in codes ==> codes[k].clientId != id)
                && (forall k :: k in access ==> access[k].clientId != id)
                && (forall k :: k in refresh ==> refresh[k].clientId != id)
      ensures |clients| < MAX_CLIENTS || forall id :: id in clients ==>
                || clients[id].name !in DISPOSABLE_CLIENT_NAMES
                || (exists k :: k in codes && codes[k].clientId == id)
                || (exists k :: k in access && access[k].clientId == id)
                || (exists k :: k in refresh && refresh[k].clientId == id)
      ensures |clients| >= Min(|old(clients)|, MAX_CLIENTS - 1)
    {
      while |clients| >= MAX_CLIENTS
        invariant forall id :: id in clients ==> id in old(clients) && clients[id] == old(clients)[id]
        invariant forall id :: id in old(clients) && id !in clients ==> old(Evictable(id))
        invariant |clients| >= Min(|old(clients)|, MAX_CLIENTS - 1)
        decreases clients.Keys
      {
        if !exists id :: id in clients && Evictable(id) {
          return;
        }
        var id :| id in clients && Evictable(id);
        assert (clients - {id}).Keys == clients.Keys - {id};
        assert |(clients - {id}).Keys| == |clients.Keys| - 1;
        clients := clients - {id};
      }
    }
  }
}
