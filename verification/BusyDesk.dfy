/** The TypeScript writer on any store file, sound or not: which jobs it drops and replaces, and when it
    fails on a job with a blank key. */
module BusyDesk {
  import opened Basics
  import opened BusyRecords
  import opened BusyHistory
  import opened BusyOperations
  import opened BusyWriters
  import opened BusyFiles
  import BusyServerStore

  // ----- jobs dropped -----

  /** Dropping goes job by job, in order. */
  lemma {:induction false} DroppingSplits(a: seq<JobEntry>, b: seq<JobEntry>, gone: set<string>, canon: Canon)
    ensures WithoutScopes(a + b, gone, canon) == WithoutScopes(a, gone, canon) + WithoutScopes(b, gone, canon)
  {
    if b == [] {
      assert a + b == a;
      assert WithoutScopes(a, gone, canon) + [] == WithoutScopes(a, gone, canon);
    } else {
      var init, last := b[..|b| - 1], b[|b| - 1];
      assert a + b == (a + init) + [last] && (a + b)[..|a + b| - 1] == a + init;
      DroppingSplits(a, init, gone, canon);
      Assoc(WithoutScopes(a, gone, canon), WithoutScopes(init, gone, canon), [last]);
    }
  }

  /** A job goes exactly when its key names one of the scopes. */
  lemma OneJobDropsIff(e: JobEntry, gone: set<string>, canon: Canon)
    ensures WithoutScopes([e], gone, canon) == if exists scope :: scope in gone && canon(e.key) == Some(scope) then [] else [e]
  {
    assert [e][..0] == [];
  }

  // ----- the job of a claim -----

  lemma KeyStands(before: seq<JobEntry>, e: JobEntry, after: seq<JobEntry>)
    requires forall i :: 0 <= i < |before| ==> before[i].key != e.key
    ensures KeyAt(before + [e] + after, e.key) == |before|
  {
    var all := before + [e] + after;
    assert all[|before|] == e && forall i :: 0 <= i < |before| ==> all[i] == before[i];
  }

  /** Assigning a key there is replaces its job in place. */
  lemma PutReplaces(before: seq<JobEntry>, key: string, previous: RawJob, after: seq<JobEntry>, job: RawJob)
    requires forall i :: 0 <= i < |before| ==> before[i].key != key
    ensures Put(before + [JobEntry(key, previous)] + after, key, job) == before + [JobEntry(key, job)] + after
  {
    KeyStands(before, JobEntry(key, previous), after);
  }

  /** Assigning a new key adds it at the end. */
  lemma PutAppends(entries: seq<JobEntry>, key: string, job: RawJob)
    requires forall i :: 0 <= i < |entries| ==> entries[i].key != key
    ensures Put(entries, key, job) == entries + [JobEntry(key, job)]
  {
  }

  ghost predicate NoneNames(entries: seq<JobEntry>, scope: string, canon: Canon) {
    forall i :: 0 <= i < |entries| ==> canon(entries[i].key).Some? && canon(entries[i].key) != Some(scope)
  }

  function NewJob(scope: string, timestamp: int, previous: RawJob): RawJob {
    RawJob(scope, Some(timestamp + 240_000), if previous.RawJob? then previous.checkpoint else None)
  }

  lemma NamingStands(before: seq<JobEntry>, e: JobEntry, after: seq<JobEntry>, scope: string, canon: Canon)
    requires NoneNames(before, scope, canon) && (canon(e.key).None? || canon(e.key) == Some(scope))
    ensures FirstNaming(before + [e] + after, scope, canon) == |before|
  {
    var all := before + [e] + after;
    assert all[|before|] == e && forall i :: 0 <= i < |before| ==> all[i] == before[i];
  }

  /** The first job that names the scope under another key gives way to one under the scope itself. */
  lemma UpsertRenames(before: seq<JobEntry>, e: JobEntry, after: seq<JobEntry>, scope: string, timestamp: int, canon: Canon)
    requires NoneNames(before, scope, canon) && canon(e.key) == Some(scope) && e.key != scope
    ensures Upserted(before + [e] + after, scope, timestamp, canon) == Ok(Put(before + after, scope, NewJob(scope, timestamp, e.job)))
  {
    var all, n := before + [e] + after, |before|;
    NamingStands(before, e, after, scope, canon);
    assert all[n] == e && all[..n] + all[n + 1..] == before + after;
  }

  /** One under the scope itself is replaced where it stands. */
  lemma UpsertReplaces(before: seq<JobEntry>, previous: RawJob, after: seq<JobEntry>, scope: string, timestamp: int, canon: Canon)
    requires NoneNames(before, scope, canon) && canon(scope) == Some(scope)
    ensures Upserted(before + [JobEntry(scope, previous)] + after, scope, timestamp, canon)
            == Ok(before + [JobEntry(scope, NewJob(scope, timestamp, previous))] + after)
  {
    var e := JobEntry(scope, previous);
    NamingStands(before, e, after, scope, canon);
    assert forall i :: 0 <= i < |before| ==> before[i].key != scope;
    PutReplaces(before, scope, previous, after, NewJob(scope, timestamp, previous));
    assert (before + [e] + after)[|before|] == e;
  }

  /** Where no key names the scope, a job under the scope itself is replaced, or else one is added. */
  lemma UpsertAdds(entries: seq<JobEntry>, scope: string, timestamp: int, canon: Canon)
    requires NoneNames(entries, scope, canon)
    ensures var n := KeyAt(entries, scope);
            Upserted(entries, scope, timestamp, canon)
            == Ok(Put(entries, scope, NewJob(scope, timestamp, if n < |entries| then entries[n].job else NotAJob)))
  {
  }

  /** A blank key fails the claim exactly when it comes before any key that names the scope. */
  lemma UpsertFailsIff(entries: seq<JobEntry>, scope: string, timestamp: int, canon: Canon)
    ensures Upserted(entries, scope, timestamp, canon).Err? <==>
            exists i :: 0 <= i < |entries| && canon(entries[i].key).None? && NoneNames(entries[..i], scope, canon)
    ensures Upserted(entries, scope, timestamp, canon).Err? ==> Upserted(entries, scope, timestamp, canon).error == BlankKey
  {
    var n := FirstNaming(entries, scope, canon);
    if n < |entries| && canon(entries[n].key).None? {
      assert NoneNames(entries[..n], scope, canon);
    }
    if i :| 0 <= i < |entries| && canon(entries[i].key).None? && NoneNames(entries[..i], scope, canon) {
      assert forall k :: 0 <= k < i ==> entries[k] == entries[..i][k];
      assert n == i;
    }
  }

  // ----- operations that fail -----

  predicate SomeAged(d: Desk, now: int) {
    exists scope :: scope in d.claims && now - d.claims[scope].timestamp >= 240_000
  }

  /** The claim stands and has not grown old. */
  predicate Stands(d: Desk, scope: string, now: int) {
    scope in d.claims && now - d.claims[scope].timestamp < 240_000
  }

  lemma PruningFailsIff(d: Desk, now: int, canon: Canon)
    ensures DeskPruned(d, now, canon).Err? <==> SomeAged(d, now) && HasBlankKey(d.jobs, canon)
    ensures DeskPruned(d, now, canon).Err? ==> DeskPruned(d, now, canon) == Err(BlankKey)
    ensures var p := DeskPruned(d, now, canon);
            p.Ok? ==> && p.value.ops == d.ops
                      && (forall scope :: scope in p.value.claims <==> Stands(d, scope, now))
                      && (forall scope :: scope in p.value.claims ==> p.value.claims[scope] == d.claims[scope])
                      && (!SomeAged(d, now) ==> p.value == d)
  {
    if SomeAged(d, now) {
      var scope :| scope in d.claims && now - d.claims[scope].timestamp >= 240_000;
      assert scope in Aged(d.claims, now);
    } else {
      assert Aged(d.claims, now) == {};
    }
  }

  /** A release fails on a blank key exactly when it has something to drop: an aged claim, or the claim
      itself. */
  lemma ReleaseFailsIff(d: Desk, actor: string, raw: string, now: int, canon: Canon)
    ensures var answer, name := DeskOperate(d, TsRelease(actor, raw), now, canon).answer, canon(raw);
            && (answer == Err(BlankKey) <==>
                  HasBlankKey(d.jobs, canon)
                  && (SomeAged(d, now) || (name.Some? && Stands(d, name.value, now) && d.claims[name.value].actor == actor)))
            && (answer == Err(BlankScope) <==> name.None? && !(SomeAged(d, now) && HasBlankKey(d.jobs, canon)))
            && (answer.Err? ==> answer.error in {BlankKey, BlankScope})
  {
    PruningFailsIff(d, now, canon);
    var p := DeskPruned(d, now, canon);
    BusyServerStore.BlankKeysStay(d.jobs, Aged(d.claims, now), canon);
  }

  /** Failing or refusing, an operation stores at most what pruning leaves. */
  lemma RefusalStoresOnlyPruning(d: Desk, r: TsRequest, now: int, canon: Canon)
    ensures var o := DeskOperate(d, r, now, canon);
            (o.answer.Ok? && (o.answer.value.Claimed? || o.answer.value.Released?)) ||
            o.stored == (if SomeAged(d, now) && DeskPruned(d, now, canon).Ok? then Some(DeskPruned(d, now, canon).value) else None)
  {
    PruningFailsIff(d, now, canon);
    assert SomeAged(d, now) <==> Aged(d.claims, now) != {} by {
      if Aged(d.claims, now) != {} {
        var scope :| scope in Aged(d.claims, now);
      }
    }
  }
}
