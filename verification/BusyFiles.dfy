/** The BUSY store file: how both writers read it, what an operation of either makes of it, and what
    runs of both make of it. */
module BusyFiles {
  import opened Basics
  import opened BusyRecords
  import opened BusyBoard
  import opened BusyHistory
  import opened BusyOperations
  import opened BusyWriters

  datatype RawStore = RawStore(claims: seq<RawClaim>, jobs: seq<JobEntry>, ops: Operations)

  // ----- the Python writer -----

  /** The state the Python writer reads out of the file. */
  function Reading(raw: RawStore, canon: Canon): Result<State, LoadError> {
    match LoadClaims(raw.claims, canon)
    case Err(e) => Err(e)
    case Ok(claims) => Ok(State(claims, NormalJobs(claims, raw.jobs, canon), raw.ops))
  }

  ghost predicate Writes(raw: RawStore, s: State) {
    ListsClaims(raw.claims, s.claims) && ListsJobs(raw.jobs, s.jobs) && raw.ops == s.ops
  }

  /** Reading what was written gives the written state back, with leases cut to the cap. */
  lemma WrittenIsRead(raw: RawStore, s: State, canon: Canon)
    requires Writes(raw, s) && Canonical(s.claims, canon) && Matched(s.claims, s.jobs)
    ensures Reading(raw, canon) == Ok(Recap(s))
  {
    StoredClaimsReload(raw.claims, s.claims, canon);
    NormalizeIsIdempotent(s.claims, s.jobs, raw.jobs, canon);
  }

  method StoreClaims(claims: Claims) returns (raw: seq<RawClaim>)
    ensures ListsClaims(raw, claims)
  {
    raw := [];
    var todo := claims.Keys;
    while todo != {}
      invariant todo <= claims.Keys
      invariant forall i :: 0 <= i < |raw| ==> raw[i].RawClaim? && raw[i].scope in claims && Holder(raw[i].actor, raw[i].timestamp) == claims[raw[i].scope]
      invariant forall scope :: scope in claims.Keys - todo ==> exists i :: 0 <= i < |raw| && raw[i].RawClaim? && raw[i].scope == scope
      decreases |todo|
    {
      var scope :| scope in todo;
      ghost var before := raw;
      raw := raw + [RawClaim(claims[scope].actor, scope, claims[scope].timestamp)];
      assert raw[|before|].scope == scope;
      forall done | done in claims.Keys - (todo - {scope})
        ensures exists i :: 0 <= i < |raw| && raw[i].RawClaim? && raw[i].scope == done
      {
        if done != scope {
          assert done in claims.Keys - todo;
          var i :| 0 <= i < |before| && before[i].RawClaim? && before[i].scope == done;
          assert raw[i] == before[i];
        }
      }
      todo := todo - {scope};
    }
    forall scope | scope in claims ensures exists i :: 0 <= i < |raw| && raw[i].RawClaim? && raw[i].scope == scope {
      assert scope in claims.Keys - todo;
    }
  }

  method StoreJobs(jobs: Jobs) returns (entries: seq<JobEntry>)
    ensures ListsJobs(entries, jobs)
  {
    entries := [];
    var todo := jobs.Keys;
    while todo != {}
      invariant todo <= jobs.Keys
      invariant forall i :: 0 <= i < |entries| ==> entries[i].key in jobs && entries[i].job == Stored(jobs[entries[i].key])
      invariant forall scope :: scope in jobs.Keys - todo ==> exists i :: 0 <= i < |entries| && entries[i].key == scope
      invariant forall i :: 0 <= i < |entries| ==> entries[i].key !in todo
      invariant forall i, j :: 0 <= i < |entries| && 0 <= j < |entries| && entries[i].key == entries[j].key ==> i == j
      decreases |todo|
    {
      var scope :| scope in todo;
      ghost var before := entries;
      entries := entries + [JobEntry(scope, Stored(jobs[scope]))];
      assert entries[|before|].key == scope;
      forall done | done in jobs.Keys - (todo - {scope}) ensures exists i :: 0 <= i < |entries| && entries[i].key == done {
        if done != scope {
          assert done in jobs.Keys - todo;
          var i :| 0 <= i < |before| && before[i].key == done;
          assert entries[i] == before[i];
        }
      }
      todo := todo - {scope};
    }
    forall scope | scope in jobs ensures exists i :: 0 <= i < |entries| && entries[i].key == scope {
      assert scope in jobs.Keys - todo;
    }
  }

  // ----- the TypeScript writer -----

  /** What the TypeScript writer holds of the store in memory: the claims it has loaded, and the
      rest of the file as it is. */
  datatype Desk = Desk(claims: Claims, jobs: seq<JobEntry>, ops: Operations)

  /** What an operation answers, and what it stores last, if it stores. */
  datatype DeskOutcome = DeskOutcome(answer: Result<Answer, Error>, stored: Option<Desk>)

  predicate Stays(e: JobEntry, gone: set<string>, canon: Canon) {
    canon(e.key).None? || canon(e.key).value !in gone
  }

  /** The jobs without those whose keys name one of the scopes. */
  function WithoutScopes(entries: seq<JobEntry>, gone: set<string>, canon: Canon): seq<JobEntry> {
    if entries == [] then []
    else
      var rest := WithoutScopes(entries[..|entries| - 1], gone, canon);
      if Stays(entries[|entries| - 1], gone, canon) then rest + [entries[|entries| - 1]] else rest
  }

  predicate HasBlankKey(entries: seq<JobEntry>, canon: Canon) {
    exists i :: 0 <= i < |entries| && canon(entries[i].key).None?
  }

  /** The first entry whose key names the scope, or whose key is blank, which is an error. */
  function FirstNaming(entries: seq<JobEntry>, scope: string, canon: Canon): (n: nat)
    ensures n <= |entries|
    ensures n < |entries| ==> canon(entries[n].key).None? || canon(entries[n].key) == Some(scope)
    ensures forall i :: 0 <= i < n ==> canon(entries[i].key).Some? && canon(entries[i].key) != Some(scope)
  {
    if entries == [] || canon(entries[0].key).None? || canon(entries[0].key) == Some(scope) then 0
    else 1 + FirstNaming(entries[1..], scope, canon)
  }

  /** Where the key is, or the length. */
  function KeyAt(entries: seq<JobEntry>, key: string): (n: nat)
    ensures n <= |entries| && (n < |entries| ==> entries[n].key == key)
    ensures forall i :: 0 <= i < n ==> entries[i].key != key
  {
    if entries == [] || entries[0].key == key then 0 else 1 + KeyAt(entries[1..], key)
  }

  /** Assigning a member of the jobs object. */
  function Put(entries: seq<JobEntry>, key: string, job: RawJob): seq<JobEntry> {
    var n := KeyAt(entries, key);
    if n < |entries| then entries[n := JobEntry(key, job)] else entries + [JobEntry(key, job)]
  }

  function CheckpointAt(entries: seq<JobEntry>, n: nat): Option<string> {
    if n < |entries| && entries[n].job.RawJob? then entries[n].job.checkpoint else None
  }

  /** The jobs with the one for a claim, which keeps the checkpoint of the job it replaces. */
  function Upserted(entries: seq<JobEntry>, scope: string, timestamp: int, canon: Canon): Result<seq<JobEntry>, Error> {
    var n := FirstNaming(entries, scope, canon);
    if n < |entries| && canon(entries[n].key).None? then Err(BlankKey)
    else
      var previous := if n < |entries| then n else KeyAt(entries, scope);
      var others := if n < |entries| && entries[n].key != scope then entries[..n] + entries[n + 1..] else entries;
      Ok(Put(others, scope, RawJob(scope, Some(timestamp + LEASE_CAP_MS), CheckpointAt(entries, previous))))
  }

  function DeskPruned(d: Desk, now: int, canon: Canon): Result<Desk, Error> {
    var aged := Aged(d.claims, now);
    if aged == {} then Ok(d)
    else if HasBlankKey(d.jobs, canon) then Err(BlankKey)
    else Ok(Desk(d.claims - aged, WithoutScopes(d.jobs, aged, canon), d.ops))
  }

  /** What a request makes of the pruned claims; `kept` is what pruning has stored. */
  function DeskEffect(d: Desk, r: TsRequest, now: int, canon: Canon, kept: Option<Desk>): DeskOutcome {
    if r.TsList? then DeskOutcome(Ok(Report), kept)
    else
      match canon(r.scope)
      case None => DeskOutcome(Err(BlankScope), kept)
      case Some(scope) =>
        match r
        case TsClaim(actor, _) =>
          if scope in d.claims && d.claims[scope].actor != actor then DeskOutcome(Ok(AlreadyClaimed(scope, d.claims[scope])), kept)
          else
            (match Upserted(d.jobs, scope, now, canon)
             case Err(e) => DeskOutcome(Err(e), kept)
             case Ok(jobs) => DeskOutcome(Ok(Claimed(scope, Holder(actor, now))),
                                          Some(Desk(d.claims[scope := Holder(actor, now)], jobs, d.ops))))
        case TsRelease(actor, _) =>
          if scope !in d.claims then DeskOutcome(Ok(NotClaimed), kept)
          else if d.claims[scope].actor != actor then DeskOutcome(Ok(OtherActor(scope, d.claims[scope])), kept)
          else if HasBlankKey(d.jobs, canon) then DeskOutcome(Err(BlankKey), kept)
          else DeskOutcome(Ok(Released(scope, d.claims[scope], None)),
                           Some(Desk(d.claims - {scope}, WithoutScopes(d.jobs, {scope}, canon), d.ops)))
        case TsList => DeskOutcome(Ok(Report), kept)
  }

  function DeskOperate(d: Desk, r: TsRequest, now: int, canon: Canon): DeskOutcome {
    match DeskPruned(d, now, canon)
    case Err(e) => DeskOutcome(Err(e), None)
    case Ok(pruned) => DeskEffect(pruned, r, now, canon, if Aged(d.claims, now) == {} then None else Some(pruned))
  }

  ghost predicate Persisted(raw: RawStore, d: Desk) {
    ListsClaims(raw.claims, d.claims) && raw.jobs == d.jobs && raw.ops == d.ops
  }

  // ----- an operation on the file -----

  /** What an operation of the Python coordinator may make of the file, and what it answers. The
      order in which a writer puts claims and jobs into the file is left open. */
  ghost predicate CoordinatorStep(raw: RawStore, r: Request, now: int, lag: nat, after: RawStore, answer: Result<Answer, Error>, rules: Rules) {
    match Reading(raw, rules.canon)
    case Err(cause) => answer == Err(LoadFailed(cause)) && after == raw
    case Ok(s) =>
      match Operate(s, r, now, lag, rules)
      case Err(error) => answer == Err(error) && after == raw
      case Ok(o) => answer == Ok(o.answer) && (Writes(after, o.state) || (after == raw && o.state == s))
  }

  /** The same for the TypeScript writer. */
  ghost predicate ServerStep(raw: RawStore, r: TsRequest, now: int, after: RawStore, answer: Result<Answer, Error>, canon: Canon) {
    match LoadClaims(raw.claims, canon)
    case Err(cause) => answer == Err(LoadFailed(cause)) && after == raw
    case Ok(claims) =>
      var o := DeskOperate(Desk(claims, raw.jobs, raw.ops), r, now, canon);
      answer == o.answer && if o.stored.None? then after == raw else Persisted(after, o.stored.value)
  }

  ghost predicate FileStep(raw: RawStore, e: Event, after: RawStore, answer: Result<Answer, Error>, rules: Rules) {
    match e
    case Python(r, now, lag) => CoordinatorStep(raw, r, now, lag, after, answer, rules)
    case TypeScript(r, now) => ServerStep(raw, r, now, after, answer, rules.tsCanon)
  }

  /** The event at `i` takes the file before it to the one after it. */
  ghost predicate StepAt(files: seq<RawStore>, events: seq<Event>, answers: seq<Result<Answer, Error>>, rules: Rules, i: nat)
    requires i < |events| && |files| == |events| + 1 && |answers| == |events|
  {
    FileStep(files[i], events[i], files[i + 1], answers[i], rules)
  }

  /** The file before the first event and after each, with the answers. */
  ghost predicate FileRun(files: seq<RawStore>, events: seq<Event>, answers: seq<Result<Answer, Error>>, rules: Rules) {
    && |files| == |events| + 1 && |answers| == |events|
    && forall i :: 0 <= i < |events| ==> StepAt(files, events, answers, rules, i)
  }
}
