/** What one OAuth store operation does to the token tables.

    The functions here are the specification of the provider class in OAuthProvider.dfy and
    the single steps of the runs in RefreshRuns.dfy. Times are milliseconds; each operation
    reads the clock once. Tokens are the draws of a random source that never repeats, and
    the digest of a token is injective. */
module RefreshTokens {
  import opened Basics

  const ACCESS_TTL_MS := 60 * 60 * 1000
  const REFRESH_TTL_MS := 7 * 24 * 60 * 60 * 1000
  const CODE_TTL_MS := 60_000
  const REFRESH_REUSE_GRACE_MS := 120_000
  const SUPPORTED_SCOPES := {"mcp", "offline_access"}

  type Token = nat

  datatype Digest = Sha256(token: Token)

  datatype TokenRecord = TokenRecord(
    clientId: string,
    scopes: seq<string>,
    resource: string,
    subject: string,
    expiresAt: int,
    supersededAt: Option<int>,
    successor: Option<Digest>)

  datatype CodeRecord = CodeRecord(
    clientId: string,
    redirectUri: string,
    scopes: seq<string>,
    resource: string,
    expiresAt: int)

  /** The in-memory retry cache: the plaintext successor of a superseded token. */
  datatype RecentSuccessor = RecentSuccessor(token: Token, digest: Digest, issuedAt: int)

  /** The durable part of the store. */
  datatype Tables = Tables(
    access: map<Digest, TokenRecord>,
    refresh: map<Digest, TokenRecord>,
    codes: map<Digest, CodeRecord>)

  datatype Memory = Memory(tables: Tables, recent: map<Digest, RecentSuccessor>)

  datatype OAuthError = InvalidGrant | InvalidTarget | InvalidScope

  datatype TokenPair = TokenPair(accessToken: Token, refreshToken: Token, scopes: seq<string>)

  type Outcome = (Memory, Result<TokenPair, OAuthError>)

  /** Two tokens drawn from the random source for one operation. */
  datatype Draw = Draw(access: Token, refresh: Token)

  datatype RefreshRequest = RefreshRequest(
    clientId: string,
    publicClient: bool,
    token: Token,
    scopes: Option<seq<string>>,
    resource: Option<string>)

  // ----- scopes -----

  predicate Within(inner: seq<string>, outer: seq<string>) {
    forall s :: s in inner ==> s in outer
  }

  function NonEmpty(scopes: seq<string>): (r: seq<string>)
    ensures forall s :: s in r <==> s in scopes && s != ""
  {
    if scopes == [] then []
    else if scopes[0] == "" then NonEmpty(scopes[1..])
    else [scopes[0]] + NonEmpty(scopes[1..])
  }

  function Distinct(scopes: seq<string>): (r: seq<string>)
    ensures forall s :: s in r <==> s in scopes
    ensures forall i, j :: 0 <= i < j < |r| ==> r[i] != r[j]
  {
    if scopes == [] then []
    else
      var init := Distinct(scopes[..|scopes| - 1]);
      var last := scopes[|scopes| - 1];
      assert forall s :: s in scopes <==> s in scopes[..|scopes| - 1] || s == last;
      if last in init then init else init + [last]
  }

  /** The scopes asked for without blanks and repeats, `mcp` if there are none, as long as each is supported. */
  function ValidateScopes(scopes: seq<string>): (r: Result<seq<string>, OAuthError>)
    ensures r.Ok? ==> r.value != [] && forall s :: s in r.value ==> s in SUPPORTED_SCOPES
    ensures r.Ok? ==> forall s :: s in r.value <==> if exists t :: t in scopes && t != "" then s in scopes && s != "" else s == "mcp"
    ensures r.Ok? ==> forall i, j :: 0 <= i < j < |r.value| ==> r.value[i] != r.value[j]
    ensures r == Err(InvalidScope) <==> exists s :: s in scopes && s != "" && s !in SUPPORTED_SCOPES
    ensures r.Err? ==> r.error == InvalidScope
  {
    var requested := NonEmpty(scopes);
    var out := if requested != [] then requested else ["mcp"];
    assert requested != [] ==> requested[0] in scopes && requested[0] != "";
    assert forall t :: t in scopes && t != "" ==> t in requested;
    if exists s :: s in out && s !in SUPPORTED_SCOPES then Err(InvalidScope)
    else
      assert out[0] in Distinct(out);
      Ok(Distinct(out))
  }

  /** The scopes a refresh asks for, refused when they exceed what the record holds; what it holds if
      none are asked for. */
  function NextScopes(requested: Option<seq<string>>, held: seq<string>): (r: Result<seq<string>, OAuthError>)
    ensures r.Ok? ==> Within(r.value, held)
    ensures requested.None? || requested.value == [] ==> r == Ok(held)
    ensures requested.Some? && requested.value != [] ==>
              (var asked := ValidateScopes(requested.value);
               (r.Ok? <==> asked.Ok? && Within(asked.value, held)) && (r.Ok? ==> r == asked))
    ensures r.Err? ==> r.error == InvalidScope
  {
    var next := if requested.Some? && requested.value != [] then ValidateScopes(requested.value) else Ok(held);
    if next.Err? then next
    else if exists s :: s in next.value && s !in held then Err(InvalidScope)
    else next
  }

  // ----- pruning, and the transaction every store operation runs in -----

  function Prune(m: Memory, now: int): Memory {
    var t := m.tables;
    Memory(
      Tables(
        map k | k in t.access && t.access[k].expiresAt > now :: t.access[k],
        map k | k in t.refresh && t.refresh[k].expiresAt > now :: t.refresh[k],
        map k | k in t.codes && t.codes[k].expiresAt > now :: t.codes[k]),
      map k | k in m.recent && now - m.recent[k].issuedAt <= REFRESH_REUSE_GRACE_MS && k in t.refresh :: m.recent[k])
  }

  // ----- refresh -----

  function AccessRecord(clientId: string, scopes: seq<string>, resource: string, subject: string, now: int): TokenRecord {
    TokenRecord(clientId, scopes, resource, subject, now + ACCESS_TTL_MS, None, None)
  }

  function RefreshRecord(clientId: string, scopes: seq<string>, resource: string, subject: string, now: int): TokenRecord {
    TokenRecord(clientId, scopes, resource, subject, now + REFRESH_TTL_MS, None, None)
  }

  /** Rotation of a token that has no successor yet. */
  function Rotate(m: Memory, q: RefreshRequest, next: seq<string>, now: int, drawn: Draw): Outcome
    requires Sha256(q.token) in m.tables.refresh
  {
    var key := Sha256(q.token);
    var rec := m.tables.refresh[key];
    var child := Sha256(drawn.refresh);
    var parent := rec.(supersededAt := Some(now), expiresAt := now + REFRESH_TTL_MS, scopes := next, successor := Some(child));
    (Memory(
       m.tables.(
         access := m.tables.access[Sha256(drawn.access) := AccessRecord(q.clientId, next, rec.resource, rec.subject, now)],
         refresh := m.tables.refresh[key := parent][child := RefreshRecord(q.clientId, next, rec.resource, rec.subject, now)]),
       m.recent[key := RecentSuccessor(drawn.refresh, child, now)]),
     Ok(TokenPair(drawn.access, drawn.refresh, next)))
  }

  /** A confidential client keeps its refresh token; only its lifetime and scopes change. */
  function Renew(m: Memory, q: RefreshRequest, next: seq<string>, now: int, drawn: Draw): Outcome
    requires Sha256(q.token) in m.tables.refresh
  {
    var key := Sha256(q.token);
    var rec := m.tables.refresh[key];
    (m.(tables := m.tables.(
       access := m.tables.access[Sha256(drawn.access) := AccessRecord(q.clientId, next, rec.resource, rec.subject, now)],
       refresh := m.tables.refresh[key := rec.(scopes := next, expiresAt := now + REFRESH_TTL_MS, supersededAt := None, successor := None)])),
     Ok(TokenPair(drawn.access, q.token, next)))
  }

  /** The keys visited by following successors from `key`, each stored record at most once. */
  function Trail(refresh: map<Digest, TokenRecord>, key: Digest): (visited: set<Digest>)
    ensures key in visited
    decreases refresh.Keys
  {
    if key in refresh && refresh[key].successor.Some?
    then {key} + Trail(refresh - {key}, refresh[key].successor.value)
    else {key}
  }

  function RevokeFamily(m: Memory, key: Digest): Memory {
    var gone := Trail(m.tables.refresh, key);
    Memory(m.tables.(refresh := m.tables.refresh - gone), m.recent - gone)
  }

  /** What the successor of a superseded record is, when it is still stored. */
  function StoredSuccessor(m: Memory, rec: TokenRecord): Option<TokenRecord> {
    if rec.successor.Some? && rec.successor.value in m.tables.refresh
    then Some(m.tables.refresh[rec.successor.value]) else None
  }

  /** A superseded token is presented again. */
  function Retry(m: Memory, q: RefreshRequest, next: seq<string>, now: int, drawn: Draw): Outcome
    requires Sha256(q.token) in m.tables.refresh
    requires m.tables.refresh[Sha256(q.token)].supersededAt.Some?
  {
    var key := Sha256(q.token);
    var rec := m.tables.refresh[key];
    var successor := StoredSuccessor(m, rec);
    if now - rec.supersededAt.value > REFRESH_REUSE_GRACE_MS then (RevokeFamily(m, key), Err(InvalidGrant))
    else if successor.Some? && successor.value.supersededAt.Some? then (m, Err(InvalidGrant))
    else if key in m.recent && Some(m.recent[key].digest) == rec.successor && successor.Some? then
      if next != successor.value.scopes then (m, Err(InvalidScope))
      else
        (m.(tables := m.tables.(
           access := m.tables.access[Sha256(drawn.access) := AccessRecord(q.clientId, next, rec.resource, rec.subject, now)])),
         Ok(TokenPair(drawn.access, m.recent[key].token, next)))
    else (m, Err(InvalidGrant))
  }

  function Refresh(m: Memory, q: RefreshRequest, now: int, drawn: Draw): Outcome {
    var key := Sha256(q.token);
    if key !in m.tables.refresh || m.tables.refresh[key].clientId != q.clientId || m.tables.refresh[key].expiresAt <= now
    then (m, Err(InvalidGrant))
    else
      var rec := m.tables.refresh[key];
      if q.resource.Some? && q.resource.value != rec.resource then (m, Err(InvalidTarget))
      else
        match NextScopes(q.scopes, rec.scopes)
        case Err(e) => (m, Err(e))
        case Ok(next) =>
          if !q.publicClient then Renew(m, q, next, now, drawn)
          else if rec.supersededAt.Some? then Retry(m, q, next, now, drawn)
          else Rotate(m, q, next, now, drawn)
  }

  // ----- authorization codes -----

  /** Grants a code for the requested scopes; `expected` is the one resource this server protects. */
  function Authorize(m: Memory, clientId: string, redirectUri: string, scopes: seq<string>, resource: Option<string>,
                     expected: string, code: Token, now: int): (Memory, Result<Token, OAuthError>)
  {
    if resource.Some? && resource.value != expected then (m, Err(InvalidTarget))
    else
      match ValidateScopes(scopes)
      case Err(e) => (m, Err(e))
      case Ok(granted) =>
        (m.(tables := m.tables.(codes := m.tables.codes[Sha256(code) :=
           CodeRecord(clientId, redirectUri, granted, expected, now + CODE_TTL_MS)])),
         Ok(code))
  }

  function Redeem(m: Memory, clientId: string, code: Token, redirectUri: Option<string>, resource: Option<string>,
                  subject: string, now: int, drawn: Draw): Outcome
  {
    var key := Sha256(code);
    if key !in m.tables.codes || m.tables.codes[key].clientId != clientId || m.tables.codes[key].expiresAt <= now
    then (m, Err(InvalidGrant))
    else
      var rec := m.tables.codes[key];
      if redirectUri.Some? && redirectUri.value != rec.redirectUri then (m, Err(InvalidGrant))
      else if resource.Some? && resource.value != rec.resource then (m, Err(InvalidTarget))
      else
        (m.(tables := Tables(
           m.tables.access[Sha256(drawn.access) := AccessRecord(clientId, rec.scopes, rec.resource, subject, now)],
           m.tables.refresh[Sha256(drawn.refresh) := RefreshRecord(clientId, rec.scopes, rec.resource, subject, now)],
           m.tables.codes - {key})),
         Ok(TokenPair(drawn.access, drawn.refresh, rec.scopes)))
  }

  function Revoke(m: Memory, token: Token): Memory {
    m.(tables := m.tables.(access := m.tables.access - {Sha256(token)}, refresh := m.tables.refresh - {Sha256(token)}))
  }
}
