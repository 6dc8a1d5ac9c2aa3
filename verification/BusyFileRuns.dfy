/** Runs of both writers on one store file. As long as the names they store mean the same to both,
    the file stays readable and says what the run of whole operations says. */
module BusyFileRuns {
  import opened Basics
  import opened BusyRecords
  import opened BusyBoard
  import opened BusyHistory
  import opened BusyOperations
  import opened BusyTheorems
  import opened BusyWriters
  import opened BusyFiles

  /** Both writers take the name as it is. */
  predicate Settled(scope: string, rules: Rules) {
    rules.canon(scope) == Some(scope) && rules.tsCanon(scope) == Some(scope)
  }

  ghost predicate AllSettled(claims: Claims, rules: Rules) {
    forall scope :: scope in claims ==> Settled(scope, rules)
  }

  /** At most one job a claim, under the claim's name. */
  ghost predicate TidyJobs(entries: seq<JobEntry>, claims: Claims) {
    && (forall i :: 0 <= i < |entries| ==> entries[i].key in claims && (entries[i].job.RawJob? ==> entries[i].job.scope in ["", entries[i].key]))
    && (forall i, j :: 0 <= i < |entries| && 0 <= j < |entries| && entries[i].key == entries[j].key ==> i == j)
  }

  /** The file can be read by both writers, and means the same to both. */
  ghost predicate Sound(raw: RawStore, rules: Rules) {
    && (forall i :: 0 <= i < |raw.claims| && raw.claims[i].RawClaim? ==> Settled(raw.claims[i].scope, rules))
    && LoadClaims(raw.claims, rules.canon).Ok?
    && TidyJobs(raw.jobs, LoadClaims(raw.claims, rules.canon).value)
    && Distinct(raw.ops)
  }

  // ----- reading a sound file -----

  lemma {:induction false} AlikeNamesLoadAlike(raw: seq<RawClaim>, f: Canon, g: Canon)
    requires forall i :: 0 <= i < |raw| && raw[i].RawClaim? ==> f(raw[i].scope) == g(raw[i].scope)
    ensures LoadClaims(raw, f) == LoadClaims(raw, g)
  {
    if raw == [] {
    } else {
      AlikeNamesLoadAlike(raw[..|raw| - 1], f, g);
    }
  }

  /** A sound file has one reading. */
  lemma SoundReading(raw: RawStore, rules: Rules) returns (s: State)
    requires Sound(raw, rules)
    ensures Reading(raw, rules.canon) == Ok(s) && Good(s) && AllSettled(s.claims, rules)
    ensures LoadClaims(raw.claims, rules.canon) == LoadClaims(raw.claims, rules.tsCanon) == Ok(s.claims)
    ensures s == State(s.claims, NormalJobs(s.claims, raw.jobs, rules.canon), raw.ops) && TidyJobs(raw.jobs, s.claims)
  {
    s := Reading(raw, rules.canon).value;
    AlikeNamesLoadAlike(raw.claims, rules.canon, rules.tsCanon);
    LoadIffConsistent(raw.claims, rules.canon);
    NormalJobsMatch(s.claims, raw.jobs, rules.canon);
    forall scope | scope in s.claims ensures Settled(scope, rules) {
      var i :| 0 <= i < |raw.claims| && Names(raw.claims[i], scope, rules.canon) && raw.claims[i].timestamp == s.claims[scope].timestamp;
      assert Settled(raw.claims[i].scope, rules);
    }
  }

  /** The job entries mean their own keys. */
  ghost predicate Plain(entries: seq<JobEntry>, canon: Canon) {
    forall i :: 0 <= i < |entries| && entries[i].job.RawJob? ==>
      canon(if entries[i].job.scope != "" then entries[i].job.scope else entries[i].key) == Some(entries[i].key)
  }

  lemma {:induction false} RawJobIff(entries: seq<JobEntry>, scope: string, canon: Canon)
    requires Plain(entries, canon)
    ensures match RawJobFor(entries, scope, canon)
            case Some(job) => job.RawJob? && JobEntry(scope, job) in entries
            case None => forall job: RawJob :: job.RawJob? ==> JobEntry(scope, job) !in entries
  {
    if entries == [] {
    } else {
      var init, last := entries[..|entries| - 1], entries[|entries| - 1];
      assert entries == init + [last];
      RawJobIff(init, scope, canon);
    }
  }

  lemma TidyIsPlain(entries: seq<JobEntry>, claims: Claims, rules: Rules)
    requires TidyJobs(entries, claims) && AllSettled(claims, rules)
    ensures Plain(entries, rules.canon)
  {
  }

  /** Two tidy lists that say the same of a scope have the same job for it. */
  lemma SameJob(entries: seq<JobEntry>, after: seq<JobEntry>, scope: string, canon: Canon)
    requires Plain(entries, canon) && Plain(after, canon)
    requires forall i, j :: 0 <= i < |entries| && 0 <= j < |entries| && entries[i].key == entries[j].key ==> i == j
    requires forall job :: JobEntry(scope, job) in entries <==> JobEntry(scope, job) in after
    ensures RawJobFor(entries, scope, canon) == RawJobFor(after, scope, canon)
  {
    RawJobIff(entries, scope, canon);
    RawJobIff(after, scope, canon);
    var a, b := RawJobFor(entries, scope, canon), RawJobFor(after, scope, canon);
    if a.Some? {
      assert JobEntry(scope, a.value) in after;
      assert b.Some? ==> JobEntry(scope, b.value) in entries;
    }
  }

  // ----- what the TypeScript writer does to the jobs -----

  lemma {:induction false} WithoutScopesHolds(entries: seq<JobEntry>, gone: set<string>, canon: Canon, e: JobEntry)
    ensures e in WithoutScopes(entries, gone, canon) <==> e in entries && Stays(e, gone, canon)
  {
    if entries == [] {
    } else {
      var init, last := entries[..|entries| - 1], entries[|entries| - 1];
      assert entries == init + [last];
      WithoutScopesHolds(init, gone, canon, e);
    }
  }

  lemma {:induction false} WithoutKeepsApart(entries: seq<JobEntry>, gone: set<string>, canon: Canon)
    requires forall i, j :: 0 <= i < |entries| && 0 <= j < |entries| && entries[i].key == entries[j].key ==> i == j
    ensures var left := WithoutScopes(entries, gone, canon);
            forall i, j :: 0 <= i < |left| && 0 <= j < |left| && left[i].key == left[j].key ==> i == j
  {
    if entries == [] {
    } else {
      var init, last := entries[..|entries| - 1], entries[|entries| - 1];
      var rest := WithoutScopes(init, gone, canon);
      WithoutKeepsApart(init, gone, canon);
      forall i | 0 <= i < |rest| ensures rest[i].key != last.key {
        WithoutScopesHolds(init, gone, canon, rest[i]);
        var j :| 0 <= j < |init| && init[j] == rest[i];
        assert entries[j] == init[j];
      }
    }
  }

  /** Dropping scopes drops exactly their claims and jobs. */
  lemma WithoutFollows(claims: Claims, entries: seq<JobEntry>, gone: set<string>, rules: Rules)
    requires TidyJobs(entries, claims) && AllSettled(claims, rules)
    ensures var left := WithoutScopes(entries, gone, rules.tsCanon);
            && TidyJobs(left, claims - gone) && !HasBlankKey(entries, rules.tsCanon)
            && NormalJobs(claims - gone, left, rules.canon) == NormalJobs(claims, entries, rules.canon) - gone
  {
    var left := WithoutScopes(entries, gone, rules.tsCanon);
    WithoutKeepsApart(entries, gone, rules.tsCanon);
    forall i | 0 <= i < |left|
      ensures left[i].key in claims - gone && (left[i].job.RawJob? ==> left[i].job.scope in ["", left[i].key])
    {
      WithoutScopesHolds(entries, gone, rules.tsCanon, left[i]);
      assert left[i] in left;
    }
    TidyIsPlain(entries, claims, rules);
    TidyIsPlain(left, claims - gone, rules);
    forall scope | scope in claims - gone
      ensures RawJobFor(left, scope, rules.canon) == RawJobFor(entries, scope, rules.canon)
    {
      forall job ensures JobEntry(scope, job) in entries <==> JobEntry(scope, job) in left {
        WithoutScopesHolds(entries, gone, rules.tsCanon, JobEntry(scope, job));
      }
      SameJob(entries, left, scope, rules.canon);
    }
  }

  lemma PutHolds(entries: seq<JobEntry>, key: string, job: RawJob, e: JobEntry)
    requires forall i, j :: 0 <= i < |entries| && 0 <= j < |entries| && entries[i].key == entries[j].key ==> i == j
    ensures e in Put(entries, key, job) <==> e == JobEntry(key, job) || (e in entries && e.key != key)
  {
    var n, after := KeyAt(entries, key), Put(entries, key, job);
    assert after[n] == JobEntry(key, job);
    if e in entries && e.key != key {
      var i :| 0 <= i < |entries| && entries[i] == e;
      assert after[i] == e;
    }
  }

  /** A job put for a scope is the job of that scope, and no other job changes. */
  lemma PutFollows(claims: Claims, entries: seq<JobEntry>, scope: string, holder: Holder, job: RawJob, rules: Rules)
    requires TidyJobs(entries, claims) && AllSettled(claims, rules) && Settled(scope, rules)
    requires job.RawJob? && job.scope == scope
    ensures var after := Put(entries, scope, job);
            && TidyJobs(after, claims[scope := holder])
            && NormalJobs(claims[scope := holder], after, rules.canon) ==
               NormalJobs(claims, entries, rules.canon)[scope := NormalJob(scope, holder, Some(job))]
  {
    var after := Put(entries, scope, job);
    TidyIsPlain(entries, claims, rules);
    TidyIsPlain(after, claims[scope := holder], rules);
    forall other | other in claims && other != scope
      ensures RawJobFor(after, other, rules.canon) == RawJobFor(entries, other, rules.canon)
    {
      forall j ensures JobEntry(other, j) in entries <==> JobEntry(other, j) in after {
        PutHolds(entries, scope, job, JobEntry(other, j));
      }
      SameJob(entries, after, other, rules.canon);
    }
    PutHolds(entries, scope, job, JobEntry(scope, job));
    RawJobIff(after, scope, rules.canon);
    var found := RawJobFor(after, scope, rules.canon);
    assert found == Some(job) by {
      assert JobEntry(scope, job) in after;
      PutHolds(entries, scope, job, JobEntry(scope, found.value));
    }
  }

  /** In a tidy list the job of a scope is the one under its key. */
  lemma KeyFindsJob(claims: Claims, entries: seq<JobEntry>, scope: string, rules: Rules)
    requires TidyJobs(entries, claims) && AllSettled(claims, rules) && Settled(scope, rules)
    ensures FirstNaming(entries, scope, rules.tsCanon) == KeyAt(entries, scope)
    ensures CheckpointAt(entries, KeyAt(entries, scope)) ==
            if scope in claims then NormalJobs(claims, entries, rules.canon)[scope].checkpoint else None
  {
    var n := KeyAt(entries, scope);
    TidyIsPlain(entries, claims, rules);
    RawJobIff(entries, scope, rules.canon);
    var found := RawJobFor(entries, scope, rules.canon);
    if found.Some? {
      var i :| 0 <= i < |entries| && entries[i] == JobEntry(scope, found.value);
      assert i == n;
    } else if n < |entries| {
      assert entries[n] == JobEntry(scope, entries[n].job);
    }
  }

  // ----- the TypeScript writer's step -----

  /** The writer's memory and the state say the same. */
  ghost predicate Mirrors(d: Desk, s: State, rules: Rules) {
    && s == State(d.claims, NormalJobs(d.claims, d.jobs, rules.canon), d.ops)
    && AllSettled(d.claims, rules) && TidyJobs(d.jobs, d.claims) && Distinct(d.ops)
  }

  lemma PruneMirrors(d: Desk, s: State, now: int, rules: Rules)
    requires Mirrors(d, s, rules)
    ensures DeskPruned(d, now, rules.tsCanon).Ok? && Mirrors(DeskPruned(d, now, rules.tsCanon).value, Refreshed(s, now), rules)
    ensures Aged(d.claims, now) == {} ==> Refreshed(s, now) == s
  {
    var aged := Aged(d.claims, now);
    WithoutFollows(d.claims, d.jobs, aged, rules);
    assert aged == {} ==> s.claims - aged == s.claims && s.jobs - aged == s.jobs;
  }

  lemma ClaimMirrors(d: Desk, s: State, scope: string, actor: string, now: int, rules: Rules)
    requires Mirrors(d, s, rules) && Settled(scope, rules)
    ensures Upserted(d.jobs, scope, now, rules.tsCanon).Ok?
    ensures var jobs := Upserted(d.jobs, scope, now, rules.tsCanon).value;
            Mirrors(Desk(d.claims[scope := Holder(actor, now)], jobs, d.ops), Held(s, scope, actor, MAX_LEASE_S, None, now, 0), rules)
  {
    KeyFindsJob(d.claims, d.jobs, scope, rules);
    var job := RawJob(scope, Some(now + LEASE_CAP_MS), CheckpointOf(s, scope));
    PutFollows(d.claims, d.jobs, scope, Holder(actor, now), job, rules);
  }

  lemma ReleaseMirrors(d: Desk, s: State, scope: string, rules: Rules)
    requires Mirrors(d, s, rules)
    ensures !HasBlankKey(d.jobs, rules.tsCanon)
    ensures Mirrors(Desk(d.claims - {scope}, WithoutScopes(d.jobs, {scope}, rules.tsCanon), d.ops), Freed(s, scope), rules)
  {
    WithoutFollows(d.claims, d.jobs, {scope}, rules);
  }

  /** The scope that an event may bring into the store. */
  function MayCreate(e: Event, rules: Rules): Option<string> {
    match e
    case Python(Act(Claim, Some(raw), _, _, _, _), _, _) => if rules.ambiguous(raw) then None else rules.canon(raw)
    case TypeScript(TsClaim(_, raw), _) => rules.tsCanon(raw)
    case _ => None
  }

  /** The event brings no name into the store but one that both writers take as it is. */
  predicate NamesSettled(e: Event, rules: Rules) {
    MayCreate(e, rules).Some? ==> Settled(MayCreate(e, rules).value, rules)
  }

  /** On a sound file the TypeScript writer's memory follows the state. */
  lemma DeskFollows(d: Desk, s: State, r: TsRequest, now: int, rules: Rules)
    requires Mirrors(d, s, rules) && NamesSettled(TypeScript(r, now), rules)
    ensures var o, t := DeskOperate(d, r, now, rules.tsCanon), TsOperate(s, r, now, rules.tsCanon);
            && (o.answer.Ok? ==> o.answer.value == t.answer) && (o.answer.Err? ==> t.answer == Report)
            && (if o.stored.Some? then Mirrors(o.stored.value, t.state, rules) else t.state == s)
  {
    PruneMirrors(d, s, now, rules);
    var p, q := DeskPruned(d, now, rules.tsCanon).value, Refreshed(s, now);
    if !r.TsList? && rules.tsCanon(r.scope).Some? {
      var scope := rules.tsCanon(r.scope).value;
      if r.TsClaim? {
        ClaimMirrors(p, q, scope, r.actor, now, rules);
      } else {
        ReleaseMirrors(p, q, scope, rules);
      }
    }
  }

  // ----- one operation on a sound file -----

  lemma StoredClaimsAreSettled(raw: seq<RawClaim>, claims: Claims, rules: Rules)
    requires ListsClaims(raw, claims) && AllSettled(claims, rules)
    ensures forall i :: 0 <= i < |raw| && raw[i].RawClaim? ==> Settled(raw[i].scope, rules)
    ensures LoadClaims(raw, rules.canon) == Ok(claims)
  {
    assert Canonical(claims, rules.canon);
    StoredClaimsReload(raw, claims, rules.canon);
  }

  lemma PersistedIsSound(after: RawStore, d: Desk, s: State, rules: Rules)
    requires Persisted(after, d) && Mirrors(d, s, rules)
    ensures Sound(after, rules) && Reading(after, rules.canon) == Ok(s)
  {
    StoredClaimsAreSettled(after.claims, d.claims, rules);
  }

  lemma WrittenIsSound(after: RawStore, s: State, rules: Rules)
    requires Writes(after, s) && Orderly(s) && AllSettled(s.claims, rules)
    ensures Sound(after, rules) && Reading(after, rules.canon) == Ok(Recap(s))
  {
    StoredClaimsAreSettled(after.claims, s.claims, rules);
    assert Canonical(s.claims, rules.canon);
    WrittenIsRead(after, s, rules.canon);
    forall i | 0 <= i < |after.jobs| ensures after.jobs[i].key in s.claims && after.jobs[i].job.scope == after.jobs[i].key {
      assert Fits(after.jobs[i].key, s.claims[after.jobs[i].key], s.jobs[after.jobs[i].key]);
    }
  }

  lemma EffectCreates(s: State, r: Request, now: int, lag: nat, rules: Rules)
    requires SignatureFor(r, rules).Some?
    ensures var created := MayCreate(Python(r, now, lag), rules);
            forall scope :: scope in EffectOf(s, r, now, lag, rules).state.claims ==> scope in s.claims || created == Some(scope)
  {
  }

  /** A step brings in at most the one name. */
  lemma StepCreates(s: State, e: Event, rules: Rules)
    ensures forall scope :: scope in Answered(s, e, rules).state.claims ==> scope in s.claims || MayCreate(e, rules) == Some(scope)
  {
    match e
    case Python(r, now, lag) =>
      if SignatureFor(r, rules).Some? {
        EffectCreates(Swept(s, now), r, now, lag, rules);
        SignedIsOnce(s, r, now, lag, rules);
      }
    case TypeScript(r, now) =>
  }

  /** On a sound file an operation of either writer does what the state's step says, gives its
      answer, and leaves a sound file. */
  lemma FileStepFollows(raw: RawStore, e: Event, after: RawStore, answer: Result<Answer, Error>, rules: Rules)
    requires Sound(raw, rules) && FileStep(raw, e, after, answer, rules) && NamesSettled(e, rules)
    ensures Sound(after, rules)
    ensures var s := Reading(raw, rules.canon).value;
            && Reading(after, rules.canon) == Ok(Step(s, e, rules))
            && Answered(s, e, rules).answer == if answer.Ok? then answer.value else Report
  {
    var s := SoundReading(raw, rules);
    StepKeepsGood(s, e, rules);
    RecapIsGood(s);
    match e
    case Python(r, now, lag) =>
      if Operate(s, r, now, lag, rules).Ok? {
        var o := Operate(s, r, now, lag, rules).value;
        StepCreates(s, e, rules);
        if Writes(after, o.state) {
          WrittenIsSound(after, o.state, rules);
        }
      }
    case TypeScript(r, now) =>
      var d := Desk(s.claims, raw.jobs, raw.ops);
      DeskFollows(d, s, r, now, rules);
      TypeScriptKeepsOrder(s, r, now, rules.tsCanon);
      RecapIsGood(TsOperate(s, r, now, rules.tsCanon).state);
      var o := DeskOperate(d, r, now, rules.tsCanon);
      if o.stored.Some? {
        PersistedIsSound(after, o.stored.value, TsOperate(s, r, now, rules.tsCanon).state, rules);
      }
  }

  // ----- runs -----

  ghost predicate AllNamesSettled(events: seq<Event>, rules: Rules) {
    forall i :: 0 <= i < |events| ==> NamesSettled(events[i], rules)
  }

  lemma {:induction false} FilesFollowTo(files: seq<RawStore>, events: seq<Event>, answers: seq<Result<Answer, Error>>, rules: Rules, n: nat)
    requires FileRun(files, events, answers, rules) && Sound(files[0], rules) && AllNamesSettled(events, rules) && n <= |events|
    ensures Sound(files[n], rules)
    ensures Reading(files[n], rules.canon) == Ok(Run(Reading(files[0], rules.canon).value, events[..n], rules))
  {
    if n == 0 {
      var s := SoundReading(files[0], rules);
      assert events[..0] == [];
    } else {
      FilesFollowTo(files, events, answers, rules, n - 1);
      assert StepAt(files, events, answers, rules, n - 1);
      FileStepFollows(files[n - 1], events[n - 1], files[n], answers[n - 1], rules);
      assert events[..n][..n - 1] == events[..n - 1];
    }
  }

  /** From a sound file on, whatever the two writers do with names that both take as they are, every
      file in between is sound and is what the run of whole operations makes of the first, and
      every answer is the run's. */
  lemma FilesFollowRun(files: seq<RawStore>, events: seq<Event>, answers: seq<Result<Answer, Error>>, rules: Rules)
    requires FileRun(files, events, answers, rules) && Sound(files[0], rules) && AllNamesSettled(events, rules)
    ensures Reading(files[0], rules.canon).Ok?
    ensures var s := Reading(files[0], rules.canon).value;
            && (forall n :: 0 <= n <= |events| ==>
                  Sound(files[n], rules) && Reading(files[n], rules.canon) == Ok(Run(s, events[..n], rules)))
            && (forall n :: 0 <= n < |events| && answers[n].Ok? ==>
                  answers[n].value == Answered(Run(s, events[..n], rules), events[n], rules).answer)
  {
    var s := SoundReading(files[0], rules);
    forall n | 0 <= n <= |events|
      ensures Sound(files[n], rules) && Reading(files[n], rules.canon) == Ok(Run(s, events[..n], rules))
    {
      FilesFollowTo(files, events, answers, rules, n);
    }
    forall n | 0 <= n < |events| && answers[n].Ok?
      ensures answers[n].value == Answered(Run(s, events[..n], rules), events[n], rules).answer
    {
      assert StepAt(files, events, answers, rules, n);
      FileStepFollows(files[n], events[n], files[n + 1], answers[n], rules);
    }
  }

  // ----- who holds a scope in the file -----

  /** A writer that reads the file finds the actor holding the scope. */
  predicate Holds(raw: RawStore, scope: string, actor: string, canon: Canon) {
    var claims := LoadClaims(raw.claims, canon);
    claims.Ok? && scope in claims.value && claims.value[scope].actor == actor
  }

  predicate HoldsForBoth(raw: RawStore, scope: string, actor: string, rules: Rules) {
    Holds(raw, scope, actor, rules.canon) && Holds(raw, scope, actor, rules.tsCanon)
  }

  lemma SoundHolds(raw: RawStore, scope: string, actor: string, rules: Rules)
    requires Sound(raw, rules)
    ensures Reading(raw, rules.canon).Ok?
    ensures HoldsForBoth(raw, scope, actor, rules) <==> Owns(Reading(raw, rules.canon).value, scope, actor)
    ensures Holds(raw, scope, actor, rules.canon) <==> Holds(raw, scope, actor, rules.tsCanon)
  {
    var s := SoundReading(raw, rules);
  }

  /** The event ends the actor's holding of the scope: before it both writers find the actor holding
      it, after it neither does, and it is a release, a recovery or later than the lease. */
  ghost predicate EndsIn(raw: RawStore, e: Event, after: RawStore, scope: string, actor: string, rules: Rules) {
    && HoldsForBoth(raw, scope, actor, rules)
    && !Holds(after, scope, actor, rules.canon) && !Holds(after, scope, actor, rules.tsCanon)
    && var s := Reading(raw, rules.canon);
       s.Ok? && scope in s.value.claims && scope in s.value.jobs && Ends(s.value, e, scope, rules)
  }

  /** Over every run of both writers on one file: an actor that held a scope and holds it no longer
      lost it at an event that ended its holding. */
  lemma HoldingPassesOnlyAfterEnd(files: seq<RawStore>, events: seq<Event>, answers: seq<Result<Answer, Error>>, rules: Rules,
                                  scope: string, actor: string) returns (i: nat)
    requires FileRun(files, events, answers, rules) && Sound(files[0], rules) && AllNamesSettled(events, rules)
    requires Holds(files[0], scope, actor, rules.canon) && !Holds(files[|events|], scope, actor, rules.canon)
    ensures i < |events| && EndsIn(files[i], events[i], files[i + 1], scope, actor, rules)
  {
    var s := SoundReading(files[0], rules);
    assert events[..|events|] == events;
    FilesFollowTo(files, events, answers, rules, |events|);
    i := OwnershipPassesOnlyAfterEnd(s, events, scope, actor, rules);
    FilesFollowTo(files, events, answers, rules, i);
    FilesFollowTo(files, events, answers, rules, i + 1);
    SoundHolds(files[i], scope, actor, rules);
    SoundHolds(files[i + 1], scope, actor, rules);
  }

  /** At event `i` the actor is told that it holds the scope, and both writers find it so. */
  ghost predicate GrantedAt(files: seq<RawStore>, answers: seq<Result<Answer, Error>>, i: nat, scope: string, actor: string, rules: Rules)
    requires i < |answers| && |files| == |answers| + 1
  {
    && answers[i].Ok? && answers[i].value.Claimed? && answers[i].value.scope == scope && answers[i].value.holder.actor == actor
    && HoldsForBoth(files[i + 1], scope, actor, rules)
  }

  lemma SliceAt<T>(s: seq<T>, lo: nat, hi: nat, n: nat)
    requires lo + n < hi <= |s|
    ensures s[lo..hi][n] == s[lo + n]
  {
  }

  lemma PartOfRun(files: seq<RawStore>, events: seq<Event>, answers: seq<Result<Answer, Error>>, rules: Rules, lo: nat, hi: nat)
    requires FileRun(files, events, answers, rules) && AllNamesSettled(events, rules) && lo <= hi <= |events|
    ensures FileRun(files[lo..hi + 1], events[lo..hi], answers[lo..hi], rules) && AllNamesSettled(events[lo..hi], rules)
  {
    var f, e, a := files[lo..hi + 1], events[lo..hi], answers[lo..hi];
    forall i | 0 <= i < |e| ensures StepAt(f, e, a, rules, i) {
      assert StepAt(files, events, answers, rules, lo + i);
    }
  }

  /** Two grants of one scope to different actors, by whichever writers, are separated by the end of
      the first one's holding. */
  lemma FileGrantsDoNotOverlap(files: seq<RawStore>, events: seq<Event>, answers: seq<Result<Answer, Error>>, rules: Rules,
                               i: nat, j: nat, scope: string, a: string, b: string) returns (k: nat)
    requires FileRun(files, events, answers, rules) && Sound(files[0], rules) && AllNamesSettled(events, rules)
    requires i < j < |events| && a != b
    requires GrantedAt(files, answers, i, scope, a, rules) && GrantedAt(files, answers, j, scope, b, rules)
    ensures i < k <= j && EndsIn(files[k], events[k], files[k + 1], scope, a, rules)
  {
    var lo, hi := i + 1, j + 1;
    assert Holds(files[lo], scope, a, rules.canon) && !Holds(files[hi], scope, a, rules.canon);
    assert Sound(files[lo], rules) by {
      FilesFollowTo(files, events, answers, rules, lo);
    }
    k := HoldingEndsBetween(files, events, answers, rules, lo, hi, scope, a);
  }

  /** The same between any two moments of a run. */
  lemma HoldingEndsBetween(files: seq<RawStore>, events: seq<Event>, answers: seq<Result<Answer, Error>>, rules: Rules,
                           lo: nat, hi: nat, scope: string, actor: string) returns (k: nat)
    requires FileRun(files, events, answers, rules) && AllNamesSettled(events, rules) && lo <= hi <= |events|
    requires Sound(files[lo], rules) && Holds(files[lo], scope, actor, rules.canon) && !Holds(files[hi], scope, actor, rules.canon)
    ensures lo <= k < hi && EndsIn(files[k], events[k], files[k + 1], scope, actor, rules)
  {
    var f, e, r := files[lo..hi + 1], events[lo..hi], answers[lo..hi];
    PartOfRun(files, events, answers, rules, lo, hi);
    SliceAt(files, lo, hi + 1, 0);
    SliceAt(files, lo, hi + 1, hi - lo);
    var n := HoldingPassesOnlyAfterEnd(f, e, r, rules, scope, actor);
    SliceAt(files, lo, hi + 1, n);
    SliceAt(files, lo, hi + 1, n + 1);
    SliceAt(events, lo, hi, n);
    k := lo + n;
  }
}
