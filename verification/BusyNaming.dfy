/** Exactly when the two writers' ways of naming scopes let them share a store. */
module BusyNaming {
  import opened Basics
  import opened BusyRecords
  import opened BusyBoard
  import opened BusyHistory
  import opened BusyOperations
  import opened BusyTheorems
  import opened BusyWriters
  import opened BusyFiles
  import opened BusyFileRuns

  /** No record answers the event. */
  predicate Fresh(ops: Operations, e: Event) {
    match e
    case Python(r, _, _) => IdOf(r).None? || Find(ops, IdOf(r).value) == |ops|
    case TypeScript(_, _) => true
  }

  /** What a writer has stored when it tells `actor` that it holds the scope: the claim, and every
      other one whose lease still runs. */
  ghost predicate StoresGrant(s: State, e: Event, after: Claims, scope: string, actor: string, rules: Rules) {
    && scope in after && after[scope] == Holder(actor, e.now)
    && (MayCreate(e, rules) == Some(scope) || scope in s.claims)
    && (MayCreate(e, rules).Some? ==> MayCreate(e, rules) == Some(scope))
    && (forall other :: other in after ==> other in s.claims || other == scope)
    && (forall other :: other != scope && Running(s, other, e.now) ==> other in after && after[other] == s.claims[other])
  }

  lemma PythonGrant(s: State, r: Request, now: int, lag: nat, rules: Rules, o: Outcome, scope: string, actor: string)
    requires Good(s) && Fresh(s.ops, Python(r, now, lag)) && Operate(s, r, now, lag, rules) == Ok(o)
    requires o.answer == Claimed(scope, Holder(actor, now))
    ensures StoresGrant(s, Python(r, now, lag), o.state.claims, scope, actor, rules)
  {
    SweptIsGood(s, now);
    var swept := Swept(s, now);
    SignedIsOnce(s, r, now, lag, rules);
    GrantingEffect(swept, r, now, lag, rules, EffectOf(swept, r, now, lag, rules), scope, actor);
    assert o.state.claims == EffectOf(swept, r, now, lag, rules).state.claims;
  }

  lemma GrantingEffect(s: State, r: Request, now: int, lag: nat, rules: Rules, o: Outcome, scope: string, actor: string)
    requires SignatureFor(r, rules).Some? && o == EffectOf(s, r, now, lag, rules) && o.answer == Claimed(scope, Holder(actor, now))
    ensures o.state.claims == s.claims[scope := Holder(actor, now)] && rules.canon(r.scope.value) == Some(scope)
    ensures MayCreate(Python(r, now, lag), rules) in {None, Some(scope)}
    ensures scope in s.claims || MayCreate(Python(r, now, lag), rules) == Some(scope)
  {
  }

  lemma TypeScriptGrant(d: Desk, s: State, r: TsRequest, now: int, rules: Rules, scope: string, actor: string)
    requires Mirrors(d, s, rules) && Good(s) && DeskOperate(d, r, now, rules.tsCanon).answer == Ok(Claimed(scope, Holder(actor, now)))
    ensures var o := DeskOperate(d, r, now, rules.tsCanon);
            o.stored.Some? && StoresGrant(s, TypeScript(r, now), o.stored.value.claims, scope, actor, rules)
  {
    PruneMirrors(d, s, now, rules);
    forall other | Running(s, other, now) ensures other !in Aged(s.claims, now) {
      if other in Aged(s.claims, now) {
        AgedClaimsHaveNoLease(s, now, other);
      }
    }
  }

  /** What a writer has stored when it grants a scope on a sound file. */
  lemma GrantStores(raw: RawStore, e: Event, after: RawStore, scope: string, actor: string, rules: Rules) returns (claims: Claims)
    requires Sound(raw, rules) && Fresh(raw.ops, e) && FileStep(raw, e, after, Ok(Claimed(scope, Holder(actor, e.now))), rules)
    ensures Reading(raw, rules.canon).Ok? && StoresGrant(Reading(raw, rules.canon).value, e, claims, scope, actor, rules)
    ensures ListsClaims(after.claims, claims) || (after.claims == raw.claims && claims == Reading(raw, rules.canon).value.claims)
  {
    var s := SoundReading(raw, rules);
    match e
    case Python(r, now, lag) =>
      var o := Operate(s, r, now, lag, rules).value;
      PythonGrant(s, r, now, lag, rules, o, scope, actor);
      claims := o.state.claims;
    case TypeScript(r, now) =>
      var d := Desk(s.claims, raw.jobs, raw.ops);
      TypeScriptGrant(d, s, r, now, rules, scope, actor);
      claims := DeskOperate(d, r, now, rules.tsCanon).stored.value.claims;
  }

  /** A writer never finds a name that it would not keep, among names that it keeps. */
  lemma UnkeptIsUnseen(raw: seq<RawClaim>, claims: Claims, scope: string, actor: string, canon: Canon)
    requires ListsClaims(raw, claims) && canon(scope) != Some(scope)
    requires forall other :: other in claims && other != scope ==> canon(other) == Some(other)
    ensures LoadClaims(raw, canon).Ok? ==> scope !in LoadClaims(raw, canon).value
  {
    LoadIffConsistent(raw, canon);
  }

  lemma SettledGrantIsSeen(raw: seq<RawClaim>, claims: Claims, scope: string, rules: Rules)
    requires ListsClaims(raw, claims) && AllSettled(claims, rules)
    ensures LoadClaims(raw, rules.canon) == LoadClaims(raw, rules.tsCanon) == Ok(claims)
  {
    StoredClaimsAreSettled(raw, claims, rules);
    AlikeNamesLoadAlike(raw, rules.canon, rules.tsCanon);
  }

  lemma UnsettledGrantIsUnseen(raw: seq<RawClaim>, claims: Claims, scope: string, actor: string, rules: Rules)
    requires ListsClaims(raw, claims) && !Settled(scope, rules)
    requires forall other :: other in claims && other != scope ==> Settled(other, rules)
    ensures !(LoadClaims(raw, rules.canon).Ok? && scope in LoadClaims(raw, rules.canon).value
              && LoadClaims(raw, rules.tsCanon).Ok? && scope in LoadClaims(raw, rules.tsCanon).value)
  {
    if rules.canon(scope) != Some(scope) {
      UnkeptIsUnseen(raw, claims, scope, actor, rules.canon);
    } else {
      UnkeptIsUnseen(raw, claims, scope, actor, rules.tsCanon);
    }
  }

  /** A grant given on a sound file is true for both writers if and only if both take its name as it is. */
  lemma GrantIsSeenByBothIff(raw: RawStore, e: Event, after: RawStore, scope: string, actor: string, rules: Rules)
    requires Sound(raw, rules) && Fresh(raw.ops, e) && FileStep(raw, e, after, Ok(Claimed(scope, Holder(actor, e.now))), rules)
    ensures HoldsForBoth(after, scope, actor, rules) <==> Settled(scope, rules)
  {
    var s := SoundReading(raw, rules);
    var claims := GrantStores(raw, e, after, scope, actor, rules);
    assert claims[scope].actor == actor;
    if Settled(scope, rules) {
      assert LoadClaims(after.claims, rules.canon) == LoadClaims(after.claims, rules.tsCanon) == Ok(claims) by {
        if ListsClaims(after.claims, claims) {
          SettledGrantIsSeen(after.claims, claims, scope, rules);
        }
      }
    } else {
      UnsettledGrantIsUnseen(after.claims, claims, scope, actor, rules);
    }
  }

  // ----- a name that a writer would not keep -----

  /** The event asks for the scope, on behalf of the actor, in a spelling that may open a claim. */
  predicate Asks(e: Event, scope: string, actor: string, rules: Rules) {
    match e
    case Python(Act(Claim, Some(raw), Some(name), _, _, _), _, _) =>
      rules.canon(raw) == Some(scope) && !rules.ambiguous(raw) && rules.validActor(name) == Some(actor)
    case TypeScript(TsClaim(name, raw), _) => rules.tsCanon(raw) == Some(scope) && name == actor
    case _ => false
  }

  /** On a sound file a scope that nobody holds is granted to whoever asks for it. */
  lemma FreeScopeIsGranted(raw: RawStore, e: Event, after: RawStore, answer: Result<Answer, Error>, scope: string, actor: string, rules: Rules)
    requires Sound(raw, rules) && Fresh(raw.ops, e) && FileStep(raw, e, after, answer, rules) && Asks(e, scope, actor, rules)
    requires scope !in LoadClaims(raw.claims, rules.canon).value
    ensures answer == Ok(Claimed(scope, Holder(actor, e.now)))
  {
    var s := SoundReading(raw, rules);
    match e
    case Python(r, now, lag) =>
      SignedIsOnce(s, r, now, lag, rules);
    case TypeScript(r, now) =>
      var d := Desk(s.claims, raw.jobs, raw.ops);
      PruneMirrors(d, s, now, rules);
      var p := DeskPruned(d, now, rules.tsCanon).value;
      NoBlankKey(p, scope, rules);
  }

  lemma NoBlankKey(d: Desk, scope: string, rules: Rules)
    requires TidyJobs(d.jobs, d.claims) && AllSettled(d.claims, rules)
    ensures !HasBlankKey(d.jobs, rules.tsCanon) && forall now: int :: Upserted(d.jobs, scope, now, rules.tsCanon).Ok?
  {
  }

  function NamingOf(python: bool, rules: Rules): Canon {
    if python then rules.canon else rules.tsCanon
  }

  /** While one actor holds a scope, another is granted it under a name that a writer replaces by the
      scope's: after that the writer cannot read the store any more. */
  lemma UnkeptNameOverlaps(raw: RawStore, e: Event, after: RawStore, answer: Result<Answer, Error>, rules: Rules,
                           scope: string, x: string, name: string, y: string, python: bool)
    requires Sound(raw, rules) && Fresh(raw.ops, e) && FileStep(raw, e, after, answer, rules) && Asks(e, name, y, rules)
    requires Owns(Reading(raw, rules.canon).value, scope, x) && Running(Reading(raw, rules.canon).value, scope, e.now) && x != y
    requires name != scope && NamingOf(python, rules)(name) == Some(scope)
    ensures answer == Ok(Claimed(name, Holder(y, e.now)))
    ensures LoadClaims(after.claims, NamingOf(python, rules)).Err?
  {
    var s := SoundReading(raw, rules);
    assert name !in s.claims;
    FreeScopeIsGranted(raw, e, after, answer, name, y, rules);
    var claims := GrantStores(raw, e, after, name, y, rules);
    assert ListsClaims(after.claims, claims) && scope in claims && claims[scope].actor == x;
    TwoActorsConflict(after.claims, claims, scope, name, NamingOf(python, rules));
  }

  lemma TwoActorsConflict(raw: seq<RawClaim>, claims: Claims, scope: string, name: string, canon: Canon)
    requires ListsClaims(raw, claims) && scope in claims && name in claims && claims[scope].actor != claims[name].actor
    requires canon(scope) == Some(scope) == canon(name)
    ensures LoadClaims(raw, canon).Err?
  {
    LoadIffConsistent(raw, canon);
    var i :| 0 <= i < |raw| && raw[i].RawClaim? && raw[i].scope == scope;
    var j :| 0 <= j < |raw| && raw[j].RawClaim? && raw[j].scope == name;
    assert Names(raw[i], scope, canon) && Names(raw[j], scope, canon);
  }

  // ----- over all runs -----

  /** Every name that a writer may bring into the store is one that both take as it is. */
  ghost predicate NamingsAgree(rules: Rules) {
    && (forall raw: string :: rules.canon(raw).Some? && !rules.ambiguous(raw) ==> Settled(rules.canon(raw).value, rules))
    && (forall raw: string :: rules.tsCanon(raw).Some? ==> Settled(rules.tsCanon(raw).value, rules))
  }

  const NO_FILE := RawStore([], [], [])

  /** At event `i`, no record answering it, the actor is told that it holds the scope. */
  ghost predicate ToldAt(files: seq<RawStore>, events: seq<Event>, answers: seq<Result<Answer, Error>>, i: nat, scope: string, actor: string) {
    && i < |events| && i < |answers| && i < |files| && Fresh(files[i].ops, events[i])
    && answers[i] == Ok(Claimed(scope, Holder(actor, events[i].now)))
  }

  /** In every run of both writers from the first file on, whoever is told that it holds a scope is
      found holding it by both. */
  ghost predicate Trustworthy(rules: Rules) {
    forall files, events, answers, i: nat, scope, actor ::
      FileRun(files, events, answers, rules) && files[0] == NO_FILE && ToldAt(files, events, answers, i, scope, actor) ==>
        HoldsForBoth(files[i + 1], scope, actor, rules)
  }

  lemma AgreementIsTrustworthy(rules: Rules, files: seq<RawStore>, events: seq<Event>, answers: seq<Result<Answer, Error>>,
                               i: nat, scope: string, actor: string)
    requires NamingsAgree(rules) && FileRun(files, events, answers, rules) && files[0] == NO_FILE
    requires ToldAt(files, events, answers, i, scope, actor)
    ensures HoldsForBoth(files[i + 1], scope, actor, rules)
  {
    AgreementSettles(rules, events);
    assert Sound(files[i], rules) by {
      assert Sound(NO_FILE, rules);
      FilesFollowTo(files, events, answers, rules, i);
    }
    assert StepAt(files, events, answers, rules, i);
    TrustedStep(rules, files[i], events[i], files[i + 1], scope, actor);
  }

  lemma AgreementSettles(rules: Rules, events: seq<Event>)
    requires NamingsAgree(rules)
    ensures AllNamesSettled(events, rules)
  {
  }

  lemma TrustedStep(rules: Rules, raw: RawStore, e: Event, after: RawStore, scope: string, actor: string)
    requires NamingsAgree(rules) && Sound(raw, rules) && Fresh(raw.ops, e)
    requires FileStep(raw, e, after, Ok(Claimed(scope, Holder(actor, e.now))), rules)
    ensures HoldsForBoth(after, scope, actor, rules)
  {
    var s := SoundReading(raw, rules);
    var claims := GrantStores(raw, e, after, scope, actor, rules);
    AgreementSettles(rules, [e]);
    assert NamesSettled([e][0], rules);
    GrantIsSeenByBothIff(raw, e, after, scope, actor, rules);
  }

  /** A single claim on the first file. */
  lemma FirstGrant(rules: Rules, e: Event, scope: string, actor: string) returns (after: RawStore)
    requires Asks(e, scope, actor, rules) && Fresh([], e)
    requires e.Python? ==> e.request.id.None? && e.request.leaseSeconds == 240 && e.request.checkpoint.None? && e.lag == 0
    ensures FileStep(NO_FILE, e, after, Ok(Claimed(scope, Holder(actor, e.now))), rules)
  {
    var job := RawJob(scope, Some(e.now + LEASE_CAP_MS), None);
    after := RawStore([RawClaim(actor, scope, e.now)], [JobEntry(scope, job)], []);
    var start := State(map[], map[], []);
    assert Reading(NO_FILE, rules.canon) == Ok(start);
    match e
    case Python(r, now, lag) =>
      assert Swept(start, now) == start;
      var held := Held(start, scope, actor, 240, None, now, 0);
      assert Operate(start, r, now, lag, rules) == Ok(Outcome(held, Claimed(scope, Holder(actor, now))));
      assert held.jobs == map[scope := Job(scope, actor, now + LEASE_CAP_MS, now, None)];
      assert Writes(after, held) by {
        assert after.jobs[0].key == scope && after.claims[0].scope == scope;
      }
    case TypeScript(r, now) =>
      var d := Desk(map[], [], []);
      assert Aged(d.claims, now) == {};
      assert Put([], scope, job) == [JobEntry(scope, job)];
      assert Persisted(after, Desk(map[scope := Holder(actor, now)], [JobEntry(scope, job)], [])) by {
        assert after.claims[0].scope == scope;
      }
  }

  /** After it the claim is held, for at least a second. */
  lemma FirstIsHeld(first: RawStore, e: Event, scope: string, actor: string, rules: Rules)
    requires Asks(e, scope, actor, rules) && Fresh([], e) && Settled(scope, rules)
    requires FileStep(NO_FILE, e, first, Ok(Claimed(scope, Holder(actor, e.now))), rules)
    ensures Sound(first, rules) && Owns(Reading(first, rules.canon).value, scope, actor)
    ensures Running(Reading(first, rules.canon).value, scope, e.now + 999)
  {
    assert Sound(NO_FILE, rules);
    var s := SoundReading(NO_FILE, rules);
    assert s == State(map[], map[], []);
    FileStepFollows(NO_FILE, e, first, Ok(Claimed(scope, Holder(actor, e.now))), rules);
    FirstLease(s, e, scope, actor, rules);
  }

  lemma FirstLease(s: State, e: Event, scope: string, actor: string, rules: Rules)
    requires s == State(map[], map[], []) && Asks(e, scope, actor, rules) && Fresh([], e)
    ensures Owns(Step(s, e, rules), scope, actor) && Running(Step(s, e, rules), scope, e.now + 999)
  {
    match e
    case Python(r, now, lag) =>
      SignedIsOnce(s, r, now, lag, rules);
    case TypeScript(r, now) =>
      assert Refreshed(s, now) == s;
  }

  lemma {:induction false} ClaimsCanBeListed(claims: Claims) returns (raw: seq<RawClaim>)
    ensures ListsClaims(raw, claims)
    decreases |claims|
  {
    if claims == map[] {
      raw := [];
    } else {
      var scope :| scope in claims;
      var rest := claims - {scope};
      var before := ClaimsCanBeListed(rest);
      raw := before + [RawClaim(claims[scope].actor, scope, claims[scope].timestamp)];
      assert raw[|before|].scope == scope && forall i :: 0 <= i < |before| ==> raw[i] == before[i];
      forall other | other in claims ensures exists i :: 0 <= i < |raw| && raw[i].RawClaim? && raw[i].scope == other {
        if other != scope {
          assert other in rest;
          var i :| 0 <= i < |before| && before[i].RawClaim? && before[i].scope == other;
          assert raw[i].scope == other;
        }
      }
    }
  }

  /** The server can always take its step. */
  lemma ServerStepExists(raw: RawStore, r: TsRequest, now: int, rules: Rules) returns (after: RawStore, answer: Result<Answer, Error>)
    ensures FileStep(raw, TypeScript(r, now), after, answer, rules)
  {
    match LoadClaims(raw.claims, rules.tsCanon)
    case Err(cause) =>
      after, answer := raw, Err(LoadFailed(cause));
    case Ok(claims) =>
      var o := DeskOperate(Desk(claims, raw.jobs, raw.ops), r, now, rules.tsCanon);
      after, answer := raw, o.answer;
      if o.stored.Some? {
        var listed := ClaimsCanBeListed(o.stored.value.claims);
        after := RawStore(listed, o.stored.value.jobs, o.stored.value.ops);
      }
  }

  /** If grants can be trusted, then what is granted has a name that both writers keep. */
  lemma TrustedNameIsSettled(rules: Rules, e: Event, scope: string, actor: string)
    requires Trustworthy(rules) && Asks(e, scope, actor, rules) && Fresh([], e)
    requires e.Python? ==> e.request.id.None? && e.request.leaseSeconds == 240 && e.request.checkpoint.None? && e.lag == 0
    ensures Settled(scope, rules)
  {
    var after := FirstGrant(rules, e, scope, actor);
    var answer: Result<Answer, Error> := Ok(Claimed(scope, Holder(actor, e.now)));
    var files, events, answers := [NO_FILE, after], [e], [answer];
    assert StepAt(files, events, answers, rules, 0);
    assert ToldAt(files, events, answers, 0, scope, actor);
    assert HoldsForBoth(files[0 + 1], scope, actor, rules);
    assert Sound(NO_FILE, rules);
    GrantIsSeenByBothIff(NO_FILE, e, after, scope, actor, rules);
  }

  /** The two writers can be trusted in every run exactly when each one's names are names that the
      other, and it itself, takes as they are. `actor` is any well-formed actor. */
  lemma TrustworthyIff(rules: Rules, actor: string)
    requires rules.validActor(actor) == Some(actor)
    ensures Trustworthy(rules) <==> NamingsAgree(rules)
  {
    if NamingsAgree(rules) {
      forall files, events, answers, i: nat, scope, actor |
        FileRun(files, events, answers, rules) && files[0] == NO_FILE && ToldAt(files, events, answers, i, scope, actor)
        ensures HoldsForBoth(files[i + 1], scope, actor, rules)
      {
        AgreementIsTrustworthy(rules, files, events, answers, i, scope, actor);
      }
    }
    if Trustworthy(rules) {
      forall raw: string | rules.canon(raw).Some? && !rules.ambiguous(raw) ensures Settled(rules.canon(raw).value, rules) {
        TrustedNameIsSettled(rules, Python(Act(Claim, Some(raw), Some(actor), 240, None, None), 0, 0), rules.canon(raw).value, actor);
      }
      forall raw: string | rules.tsCanon(raw).Some? ensures Settled(rules.tsCanon(raw).value, rules) {
        TrustedNameIsSettled(rules, TypeScript(TsClaim(actor, raw), 0), rules.tsCanon(raw).value, actor);
      }
    }
  }
}
