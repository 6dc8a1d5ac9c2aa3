/** The TypeScript writer at work: every operation loads the file, drops the claims that have grown
    old, changes claims and jobs in place, and writes the file back. */
module BusyServerStore {
  import opened Basics
  import opened BusyRecords
  import opened BusyBoard
  import opened BusyHistory
  import opened BusyOperations
  import opened BusyWriters
  import opened BusyFiles

  // ----- taking jobs out one scope at a time -----

  lemma {:induction false} BlankKeysStay(entries: seq<JobEntry>, gone: set<string>, canon: Canon)
    ensures HasBlankKey(WithoutScopes(entries, gone, canon), canon) <==> HasBlankKey(entries, canon)
  {
    if entries == [] {
    } else {
      var init, last := entries[..|entries| - 1], entries[|entries| - 1];
      var rest := WithoutScopes(init, gone, canon);
      BlankKeysStay(init, gone, canon);
      assert entries == init + [last];
      BlankAppended(init, last, canon);
      BlankAppended(rest, last, canon);
    }
  }

  lemma BlankAppended(entries: seq<JobEntry>, e: JobEntry, canon: Canon)
    ensures HasBlankKey(entries + [e], canon) <==> HasBlankKey(entries, canon) || canon(e.key).None?
  {
    var all := entries + [e];
    assert all[|entries|] == e;
    assert forall i :: 0 <= i < |entries| ==> all[i] == entries[i];
  }

  lemma {:induction false} WithoutNone(entries: seq<JobEntry>, canon: Canon)
    ensures WithoutScopes(entries, {}, canon) == entries
  {
    if entries == [] {
    } else {
      WithoutNone(entries[..|entries| - 1], canon);
    }
  }

  lemma {:induction false} WithoutMore(entries: seq<JobEntry>, gone: set<string>, scope: string, canon: Canon)
    ensures WithoutScopes(WithoutScopes(entries, gone, canon), {scope}, canon) == WithoutScopes(entries, gone + {scope}, canon)
  {
    if entries == [] {
    } else {
      var init, last := entries[..|entries| - 1], entries[|entries| - 1];
      var rest := WithoutScopes(init, gone, canon);
      WithoutMore(init, gone, scope, canon);
      assert (rest + [last])[..|rest|] == rest;
    }
  }

  class BusyStore {
    var file: RawStore
    var claims: Claims               // in memory, loaded by every operation
    var jobs: seq<JobEntry>          // the rest of the file: the coordinator's jobs and operations
    var ops: Operations

    ghost function At(): Desk
      reads this
    {
      Desk(claims, jobs, ops)
    }

    constructor (file: RawStore)
      ensures this.file == file
    {
      this.file := file;
      claims, jobs, ops := map[], [], [];
    }

    method LoadFile(canon: Canon) returns (error: Option<Error>)
      modifies this`claims, this`jobs, this`ops
      ensures match LoadClaims(file.claims, canon)
              case Err(cause) => error == Some(LoadFailed(cause))
              case Ok(loaded) => error == None && At() == Desk(loaded, file.jobs, file.ops)
    {
      var loaded := Load(file.claims, canon);
      if loaded.Err? {
        return Some(LoadFailed(loaded.error));
      }
      claims, jobs, ops := loaded.value, file.jobs, file.ops;
      error := None;
    }

    method Persist()
      modifies this`file
      ensures Persisted(file, At())
    {
      var stored := StoreClaims(claims);
      file := RawStore(stored, jobs, ops);
    }

    /** Drops every job whose key names the scope; a blank key is an error. */
    method RemoveCoordinatorJob(scope: string, canon: Canon) returns (error: Option<Error>)
      modifies this`jobs
      ensures error == if HasBlankKey(old(jobs), canon) then Some(BlankKey) else None
      ensures error.None? ==> jobs == WithoutScopes(old(jobs), {scope}, canon)
    {
      var left: seq<JobEntry> := [];
      for i := 0 to |jobs|
        invariant jobs == old(jobs) && left == WithoutScopes(jobs[..i], {scope}, canon)
        invariant forall k :: 0 <= k < i ==> canon(jobs[k].key).Some?
      {
        assert jobs[..i + 1][..i] == jobs[..i];
        var name := canon(jobs[i].key);
        if name.None? {
          return Some(BlankKey);
        }
        if name.value != scope {
          left := left + [jobs[i]];
        }
      }
      assert jobs[..|jobs|] == jobs;
      jobs := left;
      error := None;
    }

    /** Drops the scope if its claim has reached the collision lease's age; `done` are those dropped before. */
    method DropIfAged(scope: string, now: int, canon: Canon, ghost from: Desk, ghost done: set<string>)
      returns (error: Option<Error>, dropped: bool)
      requires scope in claims && claims == from.claims - done && jobs == WithoutScopes(from.jobs, done, canon)
      modifies this`claims, this`jobs
      ensures dropped == (now - old(claims)[scope].timestamp >= LEASE_CAP_MS)
      ensures error == if dropped && HasBlankKey(from.jobs, canon) then Some(BlankKey) else None
      ensures !dropped ==> claims == old(claims) && jobs == old(jobs)
      ensures dropped && error.None? ==>
                claims == from.claims - (done + {scope}) && jobs == WithoutScopes(from.jobs, done + {scope}, canon)
    {
      dropped := now - claims[scope].timestamp >= LEASE_CAP_MS;
      if !dropped {
        return None, dropped;
      }
      BlankKeysStay(from.jobs, done, canon);
      WithoutMore(from.jobs, done, scope, canon);
      DropOneMore(from.claims, done, scope);
      claims := claims - {scope};
      error := RemoveCoordinatorJob(scope, canon);
    }

    method DropAged(now: int, canon: Canon) returns (error: Option<Error>, changed: bool)
      modifies this`claims, this`jobs
      ensures match DeskPruned(old(At()), now, canon)
              case Err(e) => error == Some(e)
              case Ok(d) => error == None && At() == d && changed == (Aged(old(claims), now) != {})
    {
      ghost var from, aged := At(), Aged(claims, now);
      ghost var done: set<string> := {};
      changed := false;
      var todo := claims.Keys;
      WithoutNone(jobs, canon);
      assert from.claims - {} == from.claims;
      while todo != {}
        invariant ops == from.ops && done <= aged <= done + todo && todo <= from.claims.Keys - done
        invariant claims == from.claims - done && jobs == WithoutScopes(from.jobs, done, canon)
        invariant changed == (done != {}) && (changed ==> !HasBlankKey(from.jobs, canon))
        decreases |todo|
      {
        var scope :| scope in todo;
        var dropped;
        error, dropped := DropIfAged(scope, now, canon, from, done);
        if error.Some? {
          return;
        }
        todo := todo - {scope};
        if dropped {
          done := done + {scope};
          changed := true;
        }
      }
      assert done == aged;
      error := None;
    }

    /** Drops the claims that have reached the collision lease's age, with their jobs, and stores that. */
    method Prune(now: int, canon: Canon) returns (error: Option<Error>)
      modifies this
      ensures match DeskPruned(old(At()), now, canon)
              case Err(e) => error == Some(e) && file == old(file)
              case Ok(d) => error == None && At() == d &&
                            if Aged(old(claims), now) == {} then file == old(file) else Persisted(file, d)
    {
      var changed;
      error, changed := DropAged(now, canon);
      if error.None? && changed {
        Persist();
      }
    }

    /** Loads the file and prunes. */
    method Refresh(now: int, canon: Canon) returns (error: Option<Error>)
      modifies this
      ensures match LoadClaims(old(file).claims, canon)
              case Err(cause) => error == Some(LoadFailed(cause)) && file == old(file)
              case Ok(loaded) =>
                match DeskPruned(Desk(loaded, old(file).jobs, old(file).ops), now, canon)
                case Err(e) => error == Some(e) && file == old(file)
                case Ok(d) => error == None && At() == d &&
                              if Aged(loaded, now) == {} then file == old(file) else Persisted(file, d)
    {
      error := LoadFile(canon);
      if error.Some? {
        return;
      }
      error := Prune(now, canon);
    }

    /** Sets the job of a claim; the first job whose key names the scope gives way and leaves its checkpoint. */
    method UpsertCompatibilityJob(scope: string, timestamp: int, canon: Canon) returns (error: Option<Error>)
      modifies this`jobs
      ensures match Upserted(old(jobs), scope, timestamp, canon)
              case Err(e) => error == Some(e) && jobs == old(jobs)
              case Ok(after) => error == None && jobs == after
    {
      var n := 0;
      while n < |jobs| && (canon(jobs[n].key).Some? && canon(jobs[n].key) != Some(scope))
        invariant 0 <= n <= |jobs|
        invariant forall i :: 0 <= i < n ==> canon(jobs[i].key).Some? && canon(jobs[i].key) != Some(scope)
      {
        n := n + 1;
      }
      assert n == FirstNaming(jobs, scope, canon);
      if n < |jobs| && canon(jobs[n].key).None? {
        return Some(BlankKey);
      }
      var previous := if n < |jobs| then n else KeyAt(jobs, scope);
      var checkpoint := CheckpointAt(jobs, previous);
      var others := jobs;
      if n < |jobs| && jobs[n].key != scope {
        others := jobs[..n] + jobs[n + 1..];
      }
      jobs := Put(others, scope, RawJob(scope, Some(timestamp + LEASE_CAP_MS), checkpoint));
      error := None;
    }

    method Claim(actor: string, scope: string, now: int, canon: Canon) returns (answer: Result<Answer, Error>)
      modifies this
      ensures ServerStep(old(file), TsClaim(actor, scope), now, file, answer, canon)
    {
      var error := Refresh(now, canon);
      if error.Some? {
        return Err(error.value);
      }
      var canonical := canon(scope);
      if canonical.None? {
        return Err(BlankScope);
      }
      if canonical.value in claims && claims[canonical.value].actor != actor {
        return Ok(AlreadyClaimed(canonical.value, claims[canonical.value]));
      }
      claims := claims[canonical.value := Holder(actor, now)];
      error := UpsertCompatibilityJob(canonical.value, now, canon);
      if error.Some? {
        return Err(error.value);
      }
      Persist();
      answer := Ok(Claimed(canonical.value, Holder(actor, now)));
    }

    method Release(actor: string, scope: string, now: int, canon: Canon) returns (answer: Result<Answer, Error>)
      modifies this
      ensures ServerStep(old(file), TsRelease(actor, scope), now, file, answer, canon)
    {
      var error := Refresh(now, canon);
      if error.Some? {
        return Err(error.value);
      }
      var canonical := canon(scope);
      if canonical.None? {
        return Err(BlankScope);
      }
      if canonical.value !in claims {
        return Ok(NotClaimed);
      }
      var current := claims[canonical.value];
      if current.actor != actor {
        return Ok(OtherActor(canonical.value, current));
      }
      claims := claims - {canonical.value};
      error := RemoveCoordinatorJob(canonical.value, canon);
      if error.Some? {
        return Err(error.value);
      }
      Persist();
      answer := Ok(Released(canonical.value, current, None));
    }

    /** The claims that remain; listing prunes, so it may store too. */
    method List(now: int, canon: Canon) returns (answer: Result<Answer, Error>, listed: Claims)
      modifies this
      ensures ServerStep(old(file), TsList, now, file, answer, canon)
      ensures answer.Ok? ==> LoadClaims(old(file).claims, canon).Ok? &&
                             listed == LoadClaims(old(file).claims, canon).value - Aged(LoadClaims(old(file).claims, canon).value, now)
    {
      listed := map[];
      var error := Refresh(now, canon);
      if error.Some? {
        return Err(error.value), listed;
      }
      ghost var loaded := LoadClaims(old(file).claims, canon).value;
      assert Aged(loaded, now) == {} ==> loaded - Aged(loaded, now) == loaded;
      answer, listed := Ok(Report), claims;
    }
  }
}
