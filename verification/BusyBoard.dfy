/** The coordinator's in-memory state between load and store: normalising, expiring, remembering. */
module BusyBoard {
  import opened Basics
  import opened BusyRecords

  function CappedLease(timestamp: int, raw: Option<int>): int {
    if raw.Some? then Min(raw.value, timestamp + LEASE_CAP_MS) else timestamp + LEASE_CAP_MS
  }

  predicate JobNames(e: JobEntry, scope: string, canon: Canon) {
    e.job.RawJob? && canon(if e.job.scope != "" then e.job.scope else e.key) == Some(scope)
  }

  /** The last stored job for the scope. */
  function RawJobFor(entries: seq<JobEntry>, scope: string, canon: Canon): Option<RawJob> {
    if entries == [] then None
    else if JobNames(entries[|entries| - 1], scope, canon) then Some(entries[|entries| - 1].job)
    else RawJobFor(entries[..|entries| - 1], scope, canon)
  }

  function NormalJob(scope: string, holder: Holder, raw: Option<RawJob>): Job {
    var stored := if raw.Some? && raw.value.RawJob? then raw.value else RawJob("", None, None);
    Job(scope, holder.actor, CappedLease(holder.timestamp, stored.lease), holder.timestamp, stored.checkpoint)
  }

  function NormalJobs(claims: Claims, entries: seq<JobEntry>, canon: Canon): Jobs {
    map scope | scope in claims :: NormalJob(scope, claims[scope], RawJobFor(entries, scope, canon))
  }

  predicate Fits(scope: string, holder: Holder, job: Job) {
    job.scope == scope && job.owner == holder.actor && job.claimTimestamp == holder.timestamp
  }

  /** The job table says exactly what the claims say. */
  ghost predicate Matched(claims: Claims, jobs: Jobs) {
    jobs.Keys == claims.Keys && forall scope :: scope in claims ==> Fits(scope, claims[scope], jobs[scope])
  }

  /** No lease runs longer than the cap past its claim. */
  ghost predicate Capped(jobs: Jobs) {
    forall scope :: scope in jobs ==> jobs[scope].lease <= jobs[scope].claimTimestamp + LEASE_CAP_MS
  }

  /** Whatever the stored jobs were, normalised ones match the claims, with leases within the cap. */
  lemma NormalJobsMatch(claims: Claims, entries: seq<JobEntry>, canon: Canon)
    ensures Matched(claims, NormalJobs(claims, entries, canon)) && Capped(NormalJobs(claims, entries, canon))
  {
  }

  /** Of several stored jobs for a scope the last counts. */
  lemma {:induction false} LastJobCounts(entries: seq<JobEntry>, scope: string, canon: Canon)
    ensures RawJobFor(entries, scope, canon).None? ==> forall i :: 0 <= i < |entries| ==> !JobNames(entries[i], scope, canon)
    ensures RawJobFor(entries, scope, canon).Some? ==>
              exists i :: 0 <= i < |entries| && JobNames(entries[i], scope, canon) && entries[i].job == RawJobFor(entries, scope, canon).value
                          && forall j :: i < j < |entries| ==> !JobNames(entries[j], scope, canon)
  {
    if entries == [] {
    } else {
      var init := entries[..|entries| - 1];
      if !JobNames(entries[|entries| - 1], scope, canon) {
        LastJobCounts(init, scope, canon);
        if RawJobFor(init, scope, canon).Some? {
          var i :| 0 <= i < |init| && JobNames(init[i], scope, canon) && init[i].job == RawJobFor(init, scope, canon).value
                   && forall j :: i < j < |init| ==> !JobNames(init[j], scope, canon);
          assert entries[i] == init[i];
          forall j | i < j < |entries| ensures !JobNames(entries[j], scope, canon) {
            assert j < |init| ==> entries[j] == init[j];
          }
        }
      }
    }
  }

  /** A job names the scope it holds, or, when it holds none, the one of its key. */
  lemma JobIsFoundIff(entries: seq<JobEntry>, key: string, job: RawJob, scope: string, canon: Canon)
    requires RawJobFor(entries, scope, canon) != Some(job) && job.RawJob?
    ensures RawJobFor(entries + [JobEntry(key, job)], scope, canon) == Some(job) <==>
            (job.scope != "" && canon(job.scope) == Some(scope)) || (job.scope == "" && canon(key) == Some(scope))
  {
    assert (entries + [JobEntry(key, job)])[..|entries|] == entries;
  }

  /** What a stored job leaves of itself: its lease, cut to the cap, and its checkpoint; without a lease
      of its own the job gets the whole cap. */
  lemma NormalJobKeeps(scope: string, holder: Holder, raw: Option<RawJob>)
    ensures var job, cap := NormalJob(scope, holder, raw), holder.timestamp + LEASE_CAP_MS;
            && Fits(scope, holder, job) && job.lease <= cap
            && (job.lease != cap ==> raw.Some? && raw.value.RawJob? && raw.value.lease == Some(job.lease))
            && (raw.None? || raw.value.NotAJob? ==> job.checkpoint.None?)
            && (raw.Some? && raw.value.RawJob? ==>
                  job.checkpoint == raw.value.checkpoint
                  && (raw.value.lease.Some? && raw.value.lease.value <= cap ==> job.lease == raw.value.lease.value))
  {
  }

  function WithinCap(job: Job): Job {
    job.(lease := Min(job.lease, job.claimTimestamp + LEASE_CAP_MS))
  }

  /** The same jobs with leases cut to the cap, as the next reading has them. */
  function Recapped(jobs: Jobs): Jobs {
    map scope | scope in jobs :: WithinCap(jobs[scope])
  }

  lemma CappedStays(jobs: Jobs)
    ensures Capped(Recapped(jobs)) && (Capped(jobs) <==> Recapped(jobs) == jobs)
  {
    if Recapped(jobs) == jobs {
      forall scope | scope in jobs ensures jobs[scope].lease <= jobs[scope].claimTimestamp + LEASE_CAP_MS {
        assert Recapped(jobs)[scope] == jobs[scope];
      }
    }
  }

  // ----- taking scopes out one by one -----

  lemma DropOneMore<V>(m: map<string, V>, gone: set<string>, scope: string)
    ensures m - gone - {scope} == m - (gone + {scope})
  {
  }

  lemma DoneOneMore(all: set<string>, todo: set<string>, scope: string)
    requires scope in todo
    ensures all - (todo - {scope}) == if scope in all then (all - todo) + {scope} else all - todo
  {
  }

  // ----- storing and loading again -----

  function Stored(job: Job): RawJob {
    RawJob(job.scope, Some(job.lease), job.checkpoint)
  }

  /** The entries are the jobs, in any order. */
  ghost predicate ListsJobs(entries: seq<JobEntry>, jobs: Jobs) {
    && (forall i :: 0 <= i < |entries| ==> entries[i].key in jobs && entries[i].job == Stored(jobs[entries[i].key]))
    && (forall scope :: scope in jobs ==> exists i :: 0 <= i < |entries| && entries[i].key == scope)
    && (forall i, j :: 0 <= i < |entries| && 0 <= j < |entries| && entries[i].key == entries[j].key ==> i == j)
  }

  ghost predicate ListsClaims(raw: seq<RawClaim>, claims: Claims) {
    && (forall i :: 0 <= i < |raw| ==> raw[i].RawClaim? && raw[i].scope in claims && Holder(raw[i].actor, raw[i].timestamp) == claims[raw[i].scope])
    && (forall scope :: scope in claims ==> exists i :: 0 <= i < |raw| && raw[i].RawClaim? && raw[i].scope == scope)
  }

  ghost predicate Canonical(claims: Claims, canon: Canon) {
    forall scope :: scope in claims ==> canon(scope) == Some(scope)
  }

  /** Every stored claim is one of `claims`, under its canonical name. */
  ghost predicate FromClaims(raw: seq<RawClaim>, claims: Claims, canon: Canon) {
    forall i :: 0 <= i < |raw| ==>
      && raw[i].RawClaim? && canon(raw[i].scope) == Some(raw[i].scope)
      && raw[i].scope in claims && Holder(raw[i].actor, raw[i].timestamp) == claims[raw[i].scope]
  }

  lemma StoredIsLoadable(raw: seq<RawClaim>, claims: Claims, canon: Canon)
    requires FromClaims(raw, claims, canon)
    ensures Loadable(raw, canon)
  {
  }

  lemma ReloadedIsClaimed(again: Claims, raw: seq<RawClaim>, claims: Claims, canon: Canon, scope: string)
    requires FromClaims(raw, claims, canon) && Digest(again, raw, canon) && scope in again
    ensures scope in claims && again[scope] == claims[scope]
  {
    var i :| 0 <= i < |raw| && Names(raw[i], scope, canon) && raw[i].timestamp == again[scope].timestamp;
    assert raw[i].scope == scope;
  }

  lemma ClaimedIsReloaded(again: Claims, raw: seq<RawClaim>, claims: Claims, canon: Canon, scope: string)
    requires FromClaims(raw, claims, canon) && Digest(again, raw, canon) && scope in claims
    requires exists i :: 0 <= i < |raw| && raw[i].RawClaim? && raw[i].scope == scope
    ensures scope in again
  {
    var i :| 0 <= i < |raw| && raw[i].RawClaim? && raw[i].scope == scope;
    assert Names(raw[i], scope, canon);
  }

  /** Claims that were stored are loaded back. */
  lemma StoredClaimsReload(raw: seq<RawClaim>, claims: Claims, canon: Canon)
    requires Canonical(claims, canon) && ListsClaims(raw, claims)
    ensures LoadClaims(raw, canon) == Ok(claims)
  {
    assert FromClaims(raw, claims, canon);
    StoredIsLoadable(raw, claims, canon);
    LoadIffConsistent(raw, canon);
    var again := LoadClaims(raw, canon).value;
    assert again == claims by {
      forall scope | scope in again ensures scope in claims && again[scope] == claims[scope] {
        ReloadedIsClaimed(again, raw, claims, canon, scope);
      }
      forall scope | scope in claims ensures scope in again {
        ClaimedIsReloaded(again, raw, claims, canon, scope);
      }
    }
  }

  lemma {:induction false} StoredJobIsFound(entries: seq<JobEntry>, scope: string, stored: RawJob, canon: Canon)
    requires forall i :: 0 <= i < |entries| && JobNames(entries[i], scope, canon) ==> entries[i].job == stored
    requires exists i :: 0 <= i < |entries| && JobNames(entries[i], scope, canon)
    ensures RawJobFor(entries, scope, canon) == Some(stored)
  {
    var init, last := entries[..|entries| - 1], entries[|entries| - 1];
    if !JobNames(last, scope, canon) {
      var i :| 0 <= i < |entries| && JobNames(entries[i], scope, canon);
      assert init[i] == entries[i];
      StoredJobIsFound(init, scope, stored, canon);
    }
  }

  lemma JobReloads(claims: Claims, jobs: Jobs, entries: seq<JobEntry>, canon: Canon, scope: string)
    requires Canonical(claims, canon) && Matched(claims, jobs) && ListsJobs(entries, jobs) && scope in claims
    ensures RawJobFor(entries, scope, canon) == Some(Stored(jobs[scope]))
  {
    var i :| 0 <= i < |entries| && entries[i].key == scope;
    assert JobNames(entries[i], scope, canon);
    forall k | 0 <= k < |entries| && JobNames(entries[k], scope, canon) ensures entries[k].job == Stored(jobs[scope]) {
      var key := entries[k].key;
      assert Fits(key, claims[key], jobs[key]);
    }
    StoredJobIsFound(entries, scope, Stored(jobs[scope]), canon);
  }

  lemma NormalIsRecapped(scope: string, holder: Holder, job: Job)
    requires Fits(scope, holder, job)
    ensures NormalJob(scope, holder, Some(Stored(job))) == job.(lease := Min(job.lease, job.claimTimestamp + LEASE_CAP_MS))
  {
  }

  /** Normalising what was matched and stored changes nothing but leases past the cap. */
  lemma NormalizeIsIdempotent(claims: Claims, jobs: Jobs, entries: seq<JobEntry>, canon: Canon)
    requires Canonical(claims, canon) && Matched(claims, jobs) && ListsJobs(entries, jobs)
    ensures NormalJobs(claims, entries, canon) == Recapped(jobs)
    ensures Capped(jobs) ==> NormalJobs(claims, entries, canon) == jobs
  {
    var again := NormalJobs(claims, entries, canon);
    assert again.Keys == jobs.Keys;
    forall scope | scope in claims ensures again[scope] == Recapped(jobs)[scope] {
      JobReloads(claims, jobs, entries, canon, scope);
      NormalIsRecapped(scope, claims[scope], jobs[scope]);
    }
    assert again == Recapped(jobs);
    CappedStays(jobs);
  }
}
