/** The Python coordinator at work: it loads the store, normalises and sweeps it in place, performs
    one operation, and stores the result. */
module BusyCoordinator {
  import opened Basics
  import opened BusyRecords
  import opened BusyBoard
  import opened BusyHistory
  import opened BusyOperations
  import opened BusyFiles
  import W = BusyWriters

  class Coordinator {
    var store: RawStore              // the file
    var claims: Claims               // the state in memory
    var jobs: Jobs
    var ops: Operations

    ghost function View(): State
      reads this
    {
      State(claims, jobs, ops)
    }

    constructor (store: RawStore)
      ensures this.store == store
    {
      this.store := store;
      claims, jobs, ops := map[], map[], [];
    }

    /** One job for each claim, with what the stored jobs still say about it. */
    method NormalizeJobs(entries: seq<JobEntry>, canon: Canon) returns (changed: bool)
      modifies this`jobs
      ensures jobs == NormalJobs(claims, entries, canon)
      ensures !changed ==> forall i :: 0 <= i < |entries| ==> entries[i].key in jobs && entries[i].job == Stored(jobs[entries[i].key])
    {
      var rawJobs: map<string, RawJob> := map[];
      for i := 0 to |entries|
        invariant forall scope :: RawJobFor(entries[..i], scope, canon) == if scope in rawJobs then Some(rawJobs[scope]) else None
      {
        assert entries[..i + 1][..i] == entries[..i];
        var e := entries[i];
        if !e.job.RawJob? {
          continue;
        }
        var scope := canon(if e.job.scope != "" then e.job.scope else e.key);
        if scope.None? {
          continue;
        }
        rawJobs := rawJobs[scope.value := e.job];
      }
      assert entries[..|entries|] == entries;
      jobs := map scope | scope in claims ::
        NormalJob(scope, claims[scope], if scope in rawJobs then Some(rawJobs[scope]) else None);
      changed := |entries| != |jobs|
                 || exists i :: 0 <= i < |entries| && !(entries[i].key in jobs && entries[i].job == Stored(jobs[entries[i].key]));
    }

    method SweepExpired(now: int) returns (expired: set<string>)
      requires Matched(claims, jobs)
      modifies this`claims, this`jobs
      ensures View() == Swept(old(View()), now) && expired == BusyOperations.Ended(old(jobs), now)
    {
      expired := {};
      var leftClaims, leftJobs := claims, jobs;
      var todo := jobs.Keys;
      while todo != {}
        invariant claims == old(claims) && jobs == old(jobs)
        invariant todo <= jobs.Keys && expired == BusyOperations.Ended(jobs, now) - todo
        invariant leftClaims == claims - expired && leftJobs == jobs - expired
        decreases |todo|
      {
        var scope :| scope in todo;
        DoneOneMore(BusyOperations.Ended(jobs, now), todo, scope);
        todo := todo - {scope};
        if jobs[scope].lease <= now {
          assert scope in claims.Keys;
          assert Fits(scope, claims[scope], jobs[scope]);
          DropOneMore(claims, expired, scope);
          DropOneMore(jobs, expired, scope);
          if scope in leftClaims && leftClaims[scope].actor == jobs[scope].owner {
            leftClaims := leftClaims - {scope};
          }
          leftJobs := leftJobs - {scope};
          expired := expired + {scope};
        }
      }
      SweptDrops(View(), now, expired);
      claims, jobs := leftClaims, leftJobs;
    }

    method HoldScope(scope: string, actor: string, leaseSeconds: int, checkpoint: Option<string>, now: int, lag: nat) returns (answer: Answer)
      modifies this`claims, this`jobs
      ensures View() == Held(old(View()), scope, actor, leaseSeconds, checkpoint, now, lag)
      ensures answer == Claimed(scope, Holder(actor, now))
    {
      var saved := checkpoint;
      if saved.None? && scope in jobs {
        saved := jobs[scope].checkpoint;
      }
      claims := claims[scope := Holder(actor, now)];
      jobs := jobs[scope := Job(scope, actor, now + lag + 1000 * leaseSeconds, now, saved)];
      answer := Claimed(scope, Holder(actor, now));
    }

    /** Claim, heartbeat and release on the state in memory. */
    method ActInPlace(command: Command, scope: string, actor: string, leaseSeconds: int, checkpoint: Option<string>,
                      ambiguous: bool, now: int, lag: nat) returns (answer: Answer)
      modifies this`claims, this`jobs
      ensures Outcome(View(), answer) == ActEffect(old(View()), command, scope, actor, leaseSeconds, checkpoint, ambiguous, now, lag)
    {
      if command == Claim {
        if scope !in claims && ambiguous {
          return AmbiguousScope(scope);
        }
        if scope in claims && claims[scope].actor != actor {
          return AlreadyClaimed(scope, claims[scope]);
        }
        answer := HoldScope(scope, actor, leaseSeconds, checkpoint, now, lag);
        return;
      }
      if scope !in claims {
        return NotClaimed;
      }
      var current := claims[scope];
      if current.actor != actor {
        return OtherActor(scope, current);
      }
      if command == Heartbeat {
        answer := HoldScope(scope, actor, leaseSeconds, checkpoint, now, lag);
        return;
      }
      claims, jobs := claims - {scope}, jobs - {scope};
      answer := Released(scope, current, if checkpoint == Some("") then None else checkpoint);
    }

    method RecoverInPlace(scope: string, owner: string, timestamp: int) returns (answer: Answer)
      modifies this`claims, this`jobs
      ensures Outcome(View(), answer) == RecoverEffect(old(View()), scope, owner, timestamp)
    {
      if scope !in claims {
        return NotClaimed;
      }
      var current := claims[scope];
      if current.actor != owner || current.timestamp != timestamp {
        return ClaimChanged(scope, current);
      }
      var saved := if scope in jobs then jobs[scope].checkpoint else None;
      claims, jobs := claims - {scope}, jobs - {scope};
      answer := Recovered(scope, current, if saved == Some("") then None else saved);
    }

    method RememberAnswer(id: Option<string>, signature: Signature, answer: Answer, now: int)
      requires Distinct(ops) && (Filled(id).Some? ==> Find(ops, id.value) == |ops|)
      modifies this`ops
      ensures View() == Remember(Outcome(old(View()), answer), id, signature, now).state
    {
      if id.Some? && id.value != "" {
        ops := PruneOperations(ops + [Operation(id.value, now, signature, answer)]);
      }
    }

    method Persist()
      modifies this`store
      ensures Writes(store, View())
    {
      var rawClaims := StoreClaims(claims);
      var entries := StoreJobs(jobs);
      store := RawStore(rawClaims, entries, ops);
    }

    /** Load, normalise and sweep. */
    method Refresh(now: int, canon: Canon) returns (r: Result<bool, LoadError>)
      modifies this`claims, this`jobs, this`ops
      ensures match Reading(store, canon)
              case Err(e) => r == Err(e)
              case Ok(s) => r.Ok? && View() == Swept(s, now) && (!r.value ==> View() == s)
    {
      var loaded := Load(store.claims, canon);
      if loaded.Err? {
        return Err(loaded.error);
      }
      claims, ops := loaded.value, store.ops;
      var normalized := NormalizeJobs(store.jobs, canon);
      NormalJobsMatch(claims, store.jobs, canon);
      ghost var s := View();
      var expired := SweepExpired(now);
      assert Swept(s, now) == s.(claims := s.claims - expired, jobs := s.jobs - expired) by {
        SweptDrops(s, now, expired);
      }
      assert expired == {} ==> s.claims - expired == s.claims && s.jobs - expired == s.jobs;
      r := Ok(normalized || expired != {});
    }

    /** One call of the program: the clock is read for the sweep and the claim time, and `lag`
        milliseconds later for the lease. */
    method Operate(r: Request, now: int, lag: nat, rules: Rules) returns (result: Result<Answer, Error>)
      requires Distinct(store.ops)
      modifies this
      ensures CoordinatorStep(old(store), r, now, lag, store, result, rules)
    {
      var refreshed := Refresh(now, rules.canon);
      if refreshed.Err? {
        return Err(LoadFailed(refreshed.error));
      }
      var performed := PerformInPlace(r, now, lag, rules);
      if performed.Err? {
        return Err(performed.error);
      }
      var (answer, written) := performed.value;
      if written || refreshed.value {
        Persist();
      }
      result := Ok(answer);
    }

    /** The operation itself; `written` says whether the result must be stored whatever changed before. */
    method PerformInPlace(r: Request, now: int, lag: nat, rules: Rules) returns (result: Result<(Answer, bool), Error>)
      requires Distinct(ops)
      modifies this`claims, this`jobs, this`ops
      ensures match Perform(old(View()), r, now, lag, rules)
              case Err(e) => result == Err(e)
              case Ok(o) => result.Ok? && result.value.0 == o.answer && View() == o.state && (!result.value.1 ==> View() == old(View()))
    {
      if r.Look? {
        return Ok((Report, false));
      }
      if r.scope.None? {
        return Err(ScopeRequired);
      }
      var scope := rules.canon(r.scope.value);
      if scope.None? {
        return Err(BlankScope);
      }
      match r {
        case Inspect(_) =>
          return Ok((Report, false));
        case Recover(_, owner, timestamp, id) =>
          if owner.None? {
            return Err(OwnerRequired);
          }
          if timestamp.None? {
            return Err(TimestampRequired);
          }
          var signature := RecoverSignature(owner.value, scope.value, timestamp.value);
          var replay := Replay(ops, id, signature);
          if replay.Some? {
            return Ok((replay.value, false));
          }
          var answer := RecoverInPlace(scope.value, owner.value, timestamp.value);
          RememberAnswer(id, signature, answer, now);
          return Ok((answer, true));
        case Act(command, raw, actor, lease, checkpoint, id) =>
          var name := ActingAs(command, actor, rules);
          if name.Err? {
            return Err(name.error);
          }
          var signature := SignatureOf(command, scope.value, name.value, lease, checkpoint);
          var replay := Replay(ops, id, signature);
          if replay.Some? {
            return Ok((replay.value, false));
          }
          var answer := ActInPlace(command, scope.value, name.value, CappedLeaseSeconds(lease), checkpoint, rules.ambiguous(raw.value), now, lag);
          RememberAnswer(id, signature, answer, now);
          return Ok((answer, true));
      }
    }
  }

  lemma SweptDrops(s: State, now: int, expired: set<string>)
    requires Matched(s.claims, s.jobs) && expired == BusyOperations.Ended(s.jobs, now)
    ensures Swept(s, now) == s.(claims := s.claims - expired, jobs := s.jobs - expired)
  {
    assert forall scope :: scope in s.claims ==> Fits(scope, s.claims[scope], s.jobs[scope]);
    assert Swept(s, now).claims == s.claims - expired;
  }

  /** Whatever the file held, what an operation makes of it is orderly: jobs exactly for the claimed
      scopes, with the claim's owner and time. A lease is within the cap unless this very operation
      grants it too late, and the next operation cuts that one too. */
  lemma EveryStoreIsPutInOrder(raw: RawStore, r: Request, now: int, lag: nat, rules: Rules)
    requires Distinct(raw.ops) && Reading(raw, rules.canon).Ok?
    ensures var s := Reading(raw, rules.canon).value;
            var o := BusyOperations.Operate(s, r, now, lag, rules);
            o.Ok? ==>
              && Matched(o.value.state.claims, o.value.state.jobs) && Distinct(o.value.state.ops)
              && (Capped(o.value.state.jobs) <==> !W.GrantsLate(s, r, now, lag, rules))
              && Good(Recap(o.value.state))
  {
    var s := Reading(raw, rules.canon).value;
    NormalJobsMatch(s.claims, raw.jobs, rules.canon);
    OperationKeepsGood(s, r, now, lag, rules);
    if BusyOperations.Operate(s, r, now, lag, rules).Ok? {
      W.StoredLeaseWithinCapIff(s, r, now, lag, rules);
    }
  }
}
