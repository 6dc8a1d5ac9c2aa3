/** What the TypeScript writer of the same store does to its state, and any interleaving of the two
    writers' operations. */
module BusyWriters {
  import opened Basics
  import opened BusyRecords
  import opened BusyBoard
  import opened BusyHistory
  import opened BusyOperations
  import opened BusyTheorems

  datatype TsRequest = TsClaim(actor: string, scope: string) | TsRelease(actor: string, scope: string) | TsList

  /** The claims that have reached the collision lease's age. */
  function Aged(claims: Claims, now: int): set<string> {
    set scope | scope in claims && now - claims[scope].timestamp >= LEASE_CAP_MS
  }

  function Refreshed(s: State, now: int): State {
    s.(claims := s.claims - Aged(s.claims, now), jobs := s.jobs - Aged(s.claims, now))
  }

  /** What a request makes of the refreshed state. A blank scope is an error, and changes nothing more. */
  function TsEffect(s: State, r: TsRequest, now: int, canon: Canon): Outcome {
    if r.TsList? then Outcome(s, Report)
    else
      match canon(r.scope)
      case None => Outcome(s, Report)
      case Some(scope) =>
        match r
        case TsClaim(actor, _) =>
          if scope in s.claims && s.claims[scope].actor != actor then Outcome(s, AlreadyClaimed(scope, s.claims[scope]))
          else Outcome(Held(s, scope, actor, MAX_LEASE_S, None, now, 0), Claimed(scope, Holder(actor, now)))
        case TsRelease(actor, _) => ReleaseEffect(s, scope, actor, None)
        case TsList => Outcome(s, Report)
  }

  function TsOperate(s: State, r: TsRequest, now: int, canon: Canon): Outcome {
    TsEffect(Refreshed(s, now), r, now, canon)
  }

  // ----- both writers on one store -----

  datatype Event = Python(request: Request, now: int, lag: nat) | TypeScript(call: TsRequest, now: int)

  function Answered(s: State, e: Event, rules: Rules): Outcome {
    match e
    case Python(r, now, lag) =>
      (match Operate(s, r, now, lag, rules)
       case Err(_) => Outcome(s, Report)
       case Ok(o) => o)
    case TypeScript(r, now) => TsOperate(s, r, now, rules.tsCanon)
  }

  /** The state that the next operation reads. */
  function Step(s: State, e: Event, rules: Rules): State {
    Recap(Answered(s, e, rules).state)
  }

  function Run(s: State, events: seq<Event>, rules: Rules): State {
    if events == [] then s else Step(Run(s, events[..|events| - 1], rules), events[|events| - 1], rules)
  }

  lemma TypeScriptKeepsOrder(s: State, r: TsRequest, now: int, canon: Canon)
    requires Good(s)
    ensures Good(TsOperate(s, r, now, canon).state)
  {
    var refreshed := Refreshed(s, now);
    assert Good(refreshed);
    if !r.TsList? && canon(r.scope).Some? {
      var scope := canon(r.scope).value;
      if r.TsClaim? {
        HeldIsOrderly(refreshed, scope, r.actor, MAX_LEASE_S, None, now, 0);
      } else {
        FreedIsGood(refreshed, scope);
      }
    }
  }

  lemma StepKeepsGood(s: State, e: Event, rules: Rules)
    requires Good(s)
    ensures Orderly(Answered(s, e, rules).state) && Good(Step(s, e, rules))
  {
    match e
    case Python(r, now, lag) =>
      OperationKeepsGood(s, r, now, lag, rules);
      RecapIsGood(s);
    case TypeScript(r, now) =>
      TypeScriptKeepsOrder(s, r, now, rules.tsCanon);
      RecapIsGood(TsOperate(s, r, now, rules.tsCanon).state);
  }

  lemma {:induction false} RunKeepsGood(s: State, events: seq<Event>, rules: Rules)
    requires Good(s)
    ensures Good(Run(s, events, rules))
  {
    if events == [] {
    } else {
      var before := events[..|events| - 1];
      RunKeepsGood(s, before, rules);
      StepKeepsGood(Run(s, before, rules), events[|events| - 1], rules);
    }
  }

  lemma SignedIsOnce(s: State, r: Request, now: int, lag: nat, rules: Rules)
    requires SignatureFor(r, rules).Some?
    ensures Operate(s, r, now, lag, rules) ==
            Ok(Once(Swept(s, now), r.id, SignatureFor(r, rules).value, now, EffectOf(Swept(s, now), r, now, lag, rules)))
  {
  }

  /** The scope is held with a lease that still runs. */
  predicate Running(s: State, scope: string, now: int) {
    scope in s.claims && scope in s.jobs && now < s.jobs[scope].lease
  }

  /** No record answers the request, and its command grants its actor the scope: a claim does unless
      somebody else's lease runs or an ambiguous spelling would open a new one, a heartbeat if the
      actor's own lease runs. */
  predicate WouldGrant(s: State, r: Request, now: int, rules: Rules) {
    && r.Act? && SignatureFor(r, rules).Some? && Replay(s.ops, r.id, SignatureFor(r, rules).value).None?
    && var scope, actor := rules.canon(r.scope.value).value, ActingAs(r.command, r.actor, rules).value;
       match r.command
       case Claim => (Running(s, scope, now) ==> s.claims[scope].actor == actor) && (rules.ambiguous(r.scope.value) ==> Running(s, scope, now))
       case Heartbeat => Running(s, scope, now) && s.claims[scope].actor == actor
       case Release => false
  }

  /** A claim or a heartbeat that is no repetition is answered with a grant exactly when the state
      before it says so. */
  lemma GrantIsGivenIff(s: State, r: Request, now: int, lag: nat, rules: Rules)
    requires Good(s) && SignatureFor(r, rules).Some? && Replay(s.ops, r.id, SignatureFor(r, rules).value).None?
    ensures Operate(s, r, now, lag, rules).Ok?
    ensures Operate(s, r, now, lag, rules).value.answer.Claimed? <==> WouldGrant(s, r, now, rules)
  {
    SweptIsGood(s, now);
    SignedIsOnce(s, r, now, lag, rules);
    var scope := rules.canon(r.scope.value).value;
    assert scope in Swept(s, now).claims <==> Running(s, scope, now);
  }

  /** The operation grants a lease, and the lease with the time between its two clock readings is
      longer than the cap. */
  predicate GrantsLate(s: State, r: Request, now: int, lag: nat, rules: Rules) {
    WouldGrant(s, r, now, rules) && lag + 1000 * CappedLeaseSeconds(r.leaseSeconds) > LEASE_CAP_MS
  }

  /** A stored lease runs past the cap exactly when this very operation grants it too late. */
  lemma StoredLeaseWithinCapIff(s: State, r: Request, now: int, lag: nat, rules: Rules)
    requires Good(s) && Operate(s, r, now, lag, rules).Ok?
    ensures Capped(Operate(s, r, now, lag, rules).value.state.jobs) <==> !GrantsLate(s, r, now, lag, rules)
  {
    var swept := Swept(s, now);
    SweptIsGood(s, now);
    if SignatureFor(r, rules).Some? {
      var effect := EffectOf(swept, r, now, lag, rules);
      assert Capped(effect.state.jobs) <==>
             !(r.Act? && effect.answer.Claimed? && lag + 1000 * CappedLeaseSeconds(r.leaseSeconds) > LEASE_CAP_MS) by {
        EffectIsCappedIff(swept, r, now, lag, rules);
      }
      EffectKeepsOps(swept, r, now, lag, rules);
      assert Orderly(effect.state) by {
        EffectIsCappedIff(swept, r, now, lag, rules);
      }
      OnceIsOrderly(swept, r.id, SignatureFor(r, rules).value, now, effect);
      SignedIsOnce(s, r, now, lag, rules);
      if Replay(s.ops, r.id, SignatureFor(r, rules).value).None? {
        GrantIsGivenIff(s, r, now, lag, rules);
      }
    }
  }

  lemma EffectIsCappedIff(s: State, r: Request, now: int, lag: nat, rules: Rules)
    requires Good(s) && SignatureFor(r, rules).Some?
    ensures var effect := EffectOf(s, r, now, lag, rules);
            && Orderly(effect.state)
            && (Capped(effect.state.jobs) <==>
                !(r.Act? && effect.answer.Claimed? && lag + 1000 * CappedLeaseSeconds(r.leaseSeconds) > LEASE_CAP_MS))
  {
    var scope := rules.canon(r.scope.value).value;
    if r.Act? {
      ActEffectIsOrderly(s, r.command, scope, ActingAs(r.command, r.actor, rules).value, CappedLeaseSeconds(r.leaseSeconds),
                         r.checkpoint, rules.ambiguous(r.scope.value), now, lag);
    } else {
      FreedIsGood(s, scope);
    }
  }

  /** The lease of the longest claim there is passes the cap as soon as a millisecond lies between
      the two readings. */
  lemma LeaseCanPassCap(rules: Rules)
    requires rules.canon("x") == Some("x") && rules.validActor("Codex-1") == Some("Codex-1") && !rules.ambiguous("x")
    ensures var start, r := State(map[], map[], []), Act(Claim, Some("x"), Some("Codex-1"), 240, None, None);
            && Good(start) && Operate(start, r, 0, 1, rules).Ok?
            && !Capped(Operate(start, r, 0, 1, rules).value.state.jobs)
  {
    var start, r := State(map[], map[], []), Act(Claim, Some("x"), Some("Codex-1"), 240, None, None);
    GrantIsGivenIff(start, r, 0, 1, rules);
    StoredLeaseWithinCapIff(start, r, 0, 1, rules);
  }

  // ----- who holds a scope -----

  predicate Owns(s: State, scope: string, actor: string) {
    scope in s.claims && s.claims[scope].actor == actor
  }

  /** The event ends what `s` says of the scope: the holder releases it, a recovery names exactly
      the present claim, or the lease is over when the event happens. */
  predicate Ends(s: State, e: Event, scope: string, rules: Rules)
    requires scope in s.claims && scope in s.jobs
  {
    || s.jobs[scope].lease <= e.now
    || (match e
        case Python(Act(Release, Some(raw), Some(actor), _, _, _), _, _) => rules.canon(raw) == Some(scope) && actor == s.claims[scope].actor
        case Python(Recover(Some(raw), Some(owner), Some(timestamp), _), _, _) =>
          rules.canon(raw) == Some(scope) && Holder(owner, timestamp) == s.claims[scope]
        case TypeScript(TsRelease(actor, raw), _) => rules.tsCanon(raw) == Some(scope) && actor == s.claims[scope].actor
        case _ => false)
  }

  /** A claim the TypeScript writer drops for its age has no Python lease left. */
  lemma AgedClaimsHaveNoLease(s: State, now: int, scope: string)
    requires Good(s) && scope in Aged(s.claims, now)
    ensures s.jobs[scope].lease <= now
  {
  }

  lemma TypeScriptKeepsHolder(s: State, r: TsRequest, now: int, scope: string, rules: Rules)
    requires Good(s) && scope in s.claims && !Ends(s, TypeScript(r, now), scope, rules)
    ensures Owns(TsOperate(s, r, now, rules.tsCanon).state, scope, s.claims[scope].actor)
  {
    var refreshed := Refreshed(s, now);
    assert scope in refreshed.claims && refreshed.claims[scope] == s.claims[scope];
  }

  lemma PythonKeepsHolder(s: State, r: Request, now: int, lag: nat, scope: string, rules: Rules)
    requires Good(s) && scope in s.claims && !Ends(s, Python(r, now, lag), scope, rules)
    ensures Owns(Step(s, Python(r, now, lag), rules), scope, s.claims[scope].actor)
  {
    var swept := Swept(s, now);
    SweptIsGood(s, now);
    assert scope in swept.claims && swept.claims[scope] == s.claims[scope];
    if SignatureFor(r, rules).Some? {
      EffectKeepsHolder(swept, r, now, lag, scope, rules);
      assert Operate(s, r, now, lag, rules).Ok?;
    }
  }

  lemma EffectKeepsHolder(s: State, r: Request, now: int, lag: nat, scope: string, rules: Rules)
    requires SignatureFor(r, rules).Some? && scope in s.claims && scope in s.jobs && now < s.jobs[scope].lease
    requires !Ends(s, Python(r, now, lag), scope, rules)
    ensures Owns(EffectOf(s, r, now, lag, rules).state, scope, s.claims[scope].actor)
  {
  }

  lemma StepKeepsHolder(s: State, e: Event, scope: string, rules: Rules)
    requires Good(s) && scope in s.claims && !Ends(s, e, scope, rules)
    ensures Owns(Step(s, e, rules), scope, s.claims[scope].actor)
  {
    match e
    case Python(r, now, lag) => PythonKeepsHolder(s, r, now, lag, scope, rules);
    case TypeScript(r, now) => TypeScriptKeepsHolder(s, r, now, scope, rules);
  }

  /** At event `i` of the run the actor's holding of the scope ends, and the actor loses it. */
  ghost predicate EndsAt(s: State, events: seq<Event>, i: nat, scope: string, actor: string, rules: Rules)
    requires i < |events|
  {
    var before := Run(s, events[..i], rules);
    && Owns(before, scope, actor) && scope in before.jobs && Ends(before, events[i], scope, rules)
    && !Owns(Run(s, events[..i + 1], rules), scope, actor)
  }

  /** Over every interleaving of the two writers: an actor that held a scope and holds it no longer
      lost it at an event that released it, recovered it by naming its very claim, or found its
      lease ended. */
  lemma {:induction false} OwnershipPassesOnlyAfterEnd(s: State, events: seq<Event>, scope: string, actor: string, rules: Rules)
    returns (i: nat)
    requires Good(s) && Owns(s, scope, actor) && !Owns(Run(s, events, rules), scope, actor)
    ensures i < |events| && EndsAt(s, events, i, scope, actor, rules)
  {
    var n := |events| - 1;
    var before := events[..n];
    if Owns(Run(s, before, rules), scope, actor) {
      RunKeepsGood(s, before, rules);
      i := n;
      assert events[..n + 1] == events;
      if !Ends(Run(s, before, rules), events[n], scope, rules) {
        StepKeepsHolder(Run(s, before, rules), events[n], scope, rules);
      }
    } else {
      i := OwnershipPassesOnlyAfterEnd(s, before, scope, actor, rules);
      assert before[..i] == events[..i] && before[..i + 1] == events[..i + 1] && before[i] == events[i];
    }
  }

  /** The writer that performs `e` tells `actor` that it holds the scope, and stores that. */
  ghost predicate Grants(s: State, e: Event, scope: string, actor: string, rules: Rules) {
    && Answered(s, e, rules).answer.Claimed? && Answered(s, e, rules).answer.scope == scope
    && Answered(s, e, rules).answer.holder.actor == actor
    && Owns(Step(s, e, rules), scope, actor)
  }

  /** Two grants of one scope to different actors, whichever writers gave them, are separated by
      the end of the first one's holding, at the latest in the second operation itself. */
  lemma GrantsDoNotOverlap(s: State, first: Event, between: seq<Event>, second: Event, scope: string, a: string, b: string, rules: Rules)
    requires Good(s) && a != b
    ensures var granted := Step(s, first, rules);
            Grants(s, first, scope, a, rules) && Grants(Run(granted, between, rules), second, scope, b, rules) ==>
              exists i: nat :: i <= |between| && EndsAt(granted, between + [second], i, scope, a, rules)
  {
    var granted := Step(s, first, rules);
    var all := between + [second];
    if Grants(s, first, scope, a, rules) && Grants(Run(granted, between, rules), second, scope, b, rules) {
      StepKeepsGood(s, first, rules);
      assert all[..|between|] == between;
      var i := OwnershipPassesOnlyAfterEnd(granted, all, scope, a, rules);
    }
  }

  // ----- what an operation does not touch -----

  /** The scope an event is about, if it is about one. */
  function Target(e: Event, rules: Rules): Option<string> {
    match e
    case Python(r, _, _) => if r.Look? || r.scope.None? then None else rules.canon(r.scope.value)
    case TypeScript(r, _) => if r.TsList? then None else rules.tsCanon(r.scope)
  }

  /** Claim and job of the scope are as before, or both are gone because the lease has ended. */
  ghost predicate SameOrEnded(s: State, after: State, scope: string, now: int) {
    && (scope in after.claims ==> scope in s.claims && after.claims[scope] == s.claims[scope])
    && (scope in after.jobs ==> scope in s.jobs && after.jobs[scope] == s.jobs[scope])
    && (scope in s.claims && scope !in after.claims ==> scope in s.jobs && s.jobs[scope].lease <= now)
  }

  /** Whichever writer performs it, an operation leaves every scope but its own alone, except that
      ended leases go. */
  lemma OtherScopesOnlyExpire(s: State, e: Event, scope: string, rules: Rules)
    requires Good(s) && Target(e, rules) != Some(scope)
    ensures SameOrEnded(s, Step(s, e, rules), scope, e.now)
  {
    assert SameOrEnded(s, Answered(s, e, rules).state, scope, e.now) by {
      match e
      case Python(r, now, lag) => PythonLeavesOthers(s, r, now, lag, scope, rules);
      case TypeScript(r, now) => TypeScriptLeavesOthers(s, r, now, scope, rules);
    }
    RecapLeavesOthers(s, Answered(s, e, rules).state, scope, e.now);
  }

  lemma RecapLeavesOthers(s: State, after: State, scope: string, now: int)
    requires Good(s) && SameOrEnded(s, after, scope, now)
    ensures SameOrEnded(s, Recap(after), scope, now)
  {
  }

  lemma TypeScriptLeavesOthers(s: State, r: TsRequest, now: int, scope: string, rules: Rules)
    requires Good(s) && Target(TypeScript(r, now), rules) != Some(scope)
    ensures SameOrEnded(s, TsOperate(s, r, now, rules.tsCanon).state, scope, now)
  {
    assert SameOrEnded(s, Refreshed(s, now), scope, now);
  }

  lemma PythonLeavesOthers(s: State, r: Request, now: int, lag: nat, scope: string, rules: Rules)
    requires Good(s) && Target(Python(r, now, lag), rules) != Some(scope)
    ensures SameOrEnded(s, Answered(s, Python(r, now, lag), rules).state, scope, now)
  {
    SweptIsGood(s, now);
    var swept := Swept(s, now);
    assert SameOrEnded(s, swept, scope, now);
    if SignatureFor(r, rules).Some? {
      EffectLeavesOthers(swept, r, now, lag, scope, rules);
    }
  }

  lemma EffectLeavesOthers(s: State, r: Request, now: int, lag: nat, scope: string, rules: Rules)
    requires SignatureFor(r, rules).Some? && rules.canon(r.scope.value) != Some(scope)
    ensures var after := EffectOf(s, r, now, lag, rules).state;
            && (scope in after.claims <==> scope in s.claims) && (scope in s.claims ==> after.claims[scope] == s.claims[scope])
            && (scope in after.jobs <==> scope in s.jobs) && (scope in s.jobs ==> after.jobs[scope] == s.jobs[scope])
  {
  }

  /** The checkpoint an event brings along. */
  function Supplied(e: Event): Option<string> {
    if e.Python? && e.request.Act? then e.request.checkpoint else None
  }

  /** While a holding lasts, its checkpoint changes only to one that an operation on the scope
      brings along; renewals by either writer keep it. */
  lemma CheckpointIsKept(s: State, e: Event, scope: string, rules: Rules)
    requires Good(s) && scope in s.claims && !Ends(s, e, scope, rules)
    ensures var after := Step(s, e, rules);
            scope in after.jobs &&
            (after.jobs[scope].checkpoint == s.jobs[scope].checkpoint ||
             (Supplied(e).Some? && Target(e, rules) == Some(scope) && after.jobs[scope].checkpoint == Supplied(e)))
  {
    match e
    case Python(r, now, lag) =>
      SweptIsGood(s, now);
      var swept := Swept(s, now);
      assert scope in swept.claims && swept.jobs[scope] == s.jobs[scope];
      if SignatureFor(r, rules).Some? {
        EffectKeepsCheckpoint(swept, r, now, lag, scope, rules);
      }
    case TypeScript(r, now) =>
      var refreshed := Refreshed(s, now);
      assert scope in refreshed.claims && refreshed.jobs[scope] == s.jobs[scope];
  }

  lemma EffectKeepsCheckpoint(s: State, r: Request, now: int, lag: nat, scope: string, rules: Rules)
    requires SignatureFor(r, rules).Some? && scope in s.claims && scope in s.jobs && now < s.jobs[scope].lease
    requires !Ends(s, Python(r, now, lag), scope, rules)
    ensures var after := EffectOf(s, r, now, lag, rules).state;
            scope in after.jobs &&
            (after.jobs[scope].checkpoint == s.jobs[scope].checkpoint ||
             (Supplied(Python(r, now, lag)).Some? && rules.canon(r.scope.value) == Some(scope)
              && after.jobs[scope].checkpoint == Supplied(Python(r, now, lag))))
  {
  }

  /** The TypeScript writer grants a claim exactly when nobody else holds the scope with a claim
      younger than the collision lease. */
  lemma TypeScriptGrantsIff(s: State, raw: string, scope: string, actor: string, now: int, rules: Rules)
    requires Good(s) && rules.tsCanon(raw) == Some(scope)
    ensures Grants(s, TypeScript(TsClaim(actor, raw), now), scope, actor, rules) <==>
            (scope in s.claims && s.claims[scope].actor != actor ==> now - s.claims[scope].timestamp >= LEASE_CAP_MS)
  {
  }

  /** A claim that is no repetition is granted by the Python writer exactly when no lease of
      somebody else's runs on the scope and an ambiguous spelling only renews a running one. */
  lemma ClaimIsGrantedIff(s: State, raw: string, scope: string, actor: string, lease: int, checkpoint: Option<string>, id: Option<string>,
                          now: int, lag: nat, rules: Rules)
    requires Good(s) && rules.canon(raw) == Some(scope) && rules.validActor(actor) == Some(actor)
    requires Replay(s.ops, id, SignatureOf(Claim, scope, actor, lease, checkpoint)).None?
    ensures Grants(s, Python(Act(Claim, Some(raw), Some(actor), lease, checkpoint, id), now, lag), scope, actor, rules) <==>
            (Running(s, scope, now) ==> s.claims[scope].actor == actor) && (rules.ambiguous(raw) ==> Running(s, scope, now))
  {
    var swept := Swept(s, now);
    SweptIsGood(s, now);
    var r := Act(Claim, Some(raw), Some(actor), lease, checkpoint, id);
    var effect := ClaimEffect(swept, scope, actor, CappedLeaseSeconds(lease), checkpoint, rules.ambiguous(raw), now, lag);
    assert Operate(s, r, now, lag, rules) == Ok(Remember(effect, id, SignatureOf(Claim, scope, actor, lease, checkpoint), now));
    assert scope in swept.claims <==> Running(s, scope, now);
  }

  /** A claim answered with success is true of the stored state, unless the answer is a stored one:
      then it is true exactly when the actor's own lease on the scope still runs. */
  lemma ClaimAnswerIsTrueIff(s: State, r: Request, now: int, lag: nat, rules: Rules, scope: string)
    requires Good(s) && r.Act? && r.command == Claim && SignatureFor(r, rules).Some?
    requires rules.canon(r.scope.value) == Some(scope) && Operate(s, r, now, lag, rules).value.answer.Claimed?
    ensures var actor := ActingAs(Claim, r.actor, rules).value;
            Owns(Operate(s, r, now, lag, rules).value.state, scope, actor) <==>
            (Replay(s.ops, r.id, SignatureFor(r, rules).value).None? || (Running(s, scope, now) && s.claims[scope].actor == actor))
  {
    SweptIsGood(s, now);
    assert scope in Swept(s, now).claims <==> Running(s, scope, now);
  }

  /** The stored answer can outlive the claim: claim, let the lease end, repeat the operation id. */
  lemma StoredAnswerCanOutliveClaim(rules: Rules)
    requires rules.canon("x") == Some("x") && rules.validActor("Codex-1") == Some("Codex-1") && !rules.ambiguous("x")
    ensures var r := Act(Claim, Some("x"), Some("Codex-1"), 240, None, Some("op"));
            var s := Run(State(map[], map[], []), [Python(r, 0, 0), Python(Look, 240_000, 0)], rules);
            && Operate(s, r, 240_001, 0, rules).Ok? && Operate(s, r, 240_001, 0, rules).value.answer == Claimed("x", Holder("Codex-1", 0))
            && !Owns(Operate(s, r, 240_001, 0, rules).value.state, "x", "Codex-1")
  {
    var r := Act(Claim, Some("x"), Some("Codex-1"), 240, None, Some("op"));
    var start := State(map[], map[], []);
    var e0, e1 := Python(r, 0, 0), Python(Look, 240_000, 0);
    var first := Step(start, e0, rules);
    var o := Operation("op", 0, ActSignature(Claim, "x", "Codex-1", Some(240), None), Claimed("x", Holder("Codex-1", 0)));
    FirstClaim(start, r, first, o, rules);
    assert [e0, e1][..1] == [e0] && [e0][..0] == [];
    var s := Run(start, [e0, e1], rules);
    SweptIsGood(first, 240_000);
    RecapIsGood(Swept(first, 240_000));
    assert s == Swept(first, 240_000) by {
      assert Run(start, [e0], rules) == Step(Run(start, [], rules), e0, rules) == first;
      assert Answered(first, e1, rules) == Outcome(Swept(first, 240_000), Report);
    }
    SweptIsGood(s, 240_001);
    RepeatIsAnsweredFromRecord(s, r, 240_001, 0, rules, o);
  }

  lemma FirstClaim(start: State, r: Request, first: State, o: Operation, rules: Rules)
    requires rules.canon("x") == Some("x") && rules.validActor("Codex-1") == Some("Codex-1") && !rules.ambiguous("x")
    requires start == State(map[], map[], []) && r == Act(Claim, Some("x"), Some("Codex-1"), 240, None, Some("op"))
    requires first == Step(start, Python(r, 0, 0), rules)
    requires o == Operation("op", 0, ActSignature(Claim, "x", "Codex-1", Some(240), None), Claimed("x", Holder("Codex-1", 0)))
    ensures Good(first) && "x" in first.jobs && first.jobs["x"].lease == 240_000 && first.ops == [o]
  {
    StepKeepsGood(start, Python(r, 0, 0), rules);
    assert Swept(start, 0) == start;
    var held := Held(start, "x", "Codex-1", 240, None, 0, 0);
    assert Operate(start, r, 0, 0, rules) == Ok(Remember(Outcome(held, o.answer), Some("op"), o.signature, 0));
    assert [] + [o] == [o];
  }

  // ----- records over a run -----

  function Recording(s: State, e: Event, rules: Rules): Operations {
    match e
    case Python(r, now, lag) => Recorded(s, r, now, lag, rules)
    case TypeScript(_, _) => []
  }

  /** The records that the operations of a run add. */
  function Added(s: State, events: seq<Event>, rules: Rules): Operations {
    if events == [] then []
    else
      var n := |events| - 1;
      Added(s, events[..n], rules) + Recording(Run(s, events[..n], rules), events[n], rules)
  }

  /** The clock does not go back: not behind the records, and not from one event to a later one. */
  ghost predicate ClockRuns(ops: Operations, events: seq<Event>) {
    && InTimeOrder(ops)
    && (forall i, j :: 0 <= i < |ops| && 0 <= j < |events| ==> ops[i].at <= events[j].now)
    && (forall i, j :: 0 <= i < j < |events| ==> events[i].now <= events[j].now)
  }

  /** What is remembered of `ops` and the records added since. */
  function Kept(ops: Operations, added: Operations): Operations {
    if added == [] then ops else Newest(ops + added)
  }

  lemma OneMoreInOrder(all: Operations, o: Operation)
    requires InTimeOrder(all) && forall i :: 0 <= i < |all| ==> all[i].at <= o.at
    ensures InTimeOrder(all + [o])
  {
  }

  lemma SuffixInOrder(all: Operations, cut: nat)
    requires InTimeOrder(all) && cut <= |all|
    ensures InTimeOrder(all[cut..])
  {
  }

  lemma KeepOneMore(ops: Operations, added: Operations, o: Operation)
    requires InTimeOrder(ops + added + [o])
    ensures Pruned(Kept(ops, added) + [o]) == Kept(ops, added + [o])
  {
    var kept := Kept(ops, added);
    var cut := |ops + added| - |kept|;
    assert ops + added + [o] == ops + (added + [o]);
    assert added == [] ==> ops + added == ops && added + [o] == [o];
    assert kept == (ops + added)[cut..];
    assert kept + [o] == (ops + added + [o])[cut..];
    SuffixInOrder(ops + added + [o], cut);
    PrunedIsNewest(kept + [o]);
    NewestOfMore(ops, added, o);
  }

  /** The table is what is kept of the records, which are in time order and no later than `last`. */
  ghost predicate TableIs(table: Operations, ops: Operations, added: Operations, last: int) {
    && table == Kept(ops, added) && InTimeOrder(ops + added)
    && (forall i :: 0 <= i < |added| ==> added[i].at <= last)
  }

  /** What one step adds, seen on the table alone. */
  lemma KeepStep(ops: Operations, added: Operations, more: Operations, before: Operations, after: Operations, last: int, now: int)
    requires TableIs(before, ops, added, last) && (added == [] || last <= now)
    requires forall i :: 0 <= i < |ops| ==> ops[i].at <= now
    requires after == if more == [] then before else Pruned(before + more)
    requires more == [] || (|more| == 1 && more[0].at == now)
    ensures TableIs(after, ops, added + more, now)
  {
    if more == [] {
      assert added + more == added;
    } else {
      assert more == [more[0]];
      KeepRecord(ops, added, more[0], last);
    }
  }

  lemma KeepRecord(ops: Operations, added: Operations, o: Operation, last: int)
    requires InTimeOrder(ops + added) && (added == [] || last <= o.at)
    requires (forall i :: 0 <= i < |ops| ==> ops[i].at <= o.at) && (forall i :: 0 <= i < |added| ==> added[i].at <= last)
    ensures TableIs(Pruned(Kept(ops, added) + [o]), ops, added + [o], o.at)
  {
    var all := ops + added;
    assert forall i :: 0 <= i < |all| ==> all[i].at <= o.at;
    OneMoreInOrder(all, o);
    KeepOneMore(ops, added, o);
    assert all + [o] == ops + (added + [o]);
    LatestLast(added, o, last);
  }

  lemma LatestLast(added: Operations, o: Operation, last: int)
    requires (added == [] || last <= o.at) && forall i :: 0 <= i < |added| ==> added[i].at <= last
    ensures forall i :: 0 <= i < |added + [o]| ==> (added + [o])[i].at <= o.at
  {
  }

  lemma StepOps(s: State, e: Event, rules: Rules)
    ensures Step(s, e, rules).ops == if Recording(s, e, rules) == [] then s.ops else Pruned(s.ops + Recording(s, e, rules))
    ensures Recording(s, e, rules) == [] || (|Recording(s, e, rules)| == 1 && Recording(s, e, rules)[0].at == e.now)
  {
    match e
    case Python(r, now, lag) =>
      if Operate(s, r, now, lag, rules).Ok? {
        OpsAfter(s, r, now, lag, rules);
      }
    case TypeScript(r, now) =>
  }

  lemma ClockSoFar(ops: Operations, events: seq<Event>, n: nat)
    requires ClockRuns(ops, events) && n <= |events|
    ensures ClockRuns(ops, events[..n])
  {
  }

  /** What one more event makes of the records, with what it adds. */
  lemma RecordsGrow(s: State, events: seq<Event>, rules: Rules) returns (more: Operations)
    requires events != []
    ensures var n, before := |events| - 1, Run(s, events[..|events| - 1], rules).ops;
            && Added(s, events, rules) == Added(s, events[..n], rules) + more
            && Run(s, events, rules).ops == (if more == [] then before else Pruned(before + more))
            && (more == [] || (|more| == 1 && more[0].at == events[n].now))
  {
    var n := |events| - 1;
    StepOps(Run(s, events[..n], rules), events[n], rules);
    more := Recording(Run(s, events[..n], rules), events[n], rules);
  }

  function LastTime(events: seq<Event>): int {
    if events == [] then 0 else events[|events| - 1].now
  }

  lemma {:induction false} RunKeepsTable(s: State, events: seq<Event>, rules: Rules)
    requires ClockRuns(s.ops, events)
    ensures TableIs(Run(s, events, rules).ops, s.ops, Added(s, events, rules), LastTime(events))
  {
    if events == [] {
      assert s.ops + [] == s.ops;
    } else {
      var n := |events| - 1;
      var added := Added(s, events[..n], rules);
      ClockSoFar(s.ops, events, n);
      RunKeepsTable(s, events[..n], rules);
      var more := RecordsGrow(s, events, rules);
      assert n == 0 ==> events[..n] == [] && added == [];
      assert n > 0 ==> LastTime(events[..n]) <= events[n].now;
      KeepStep(s.ops, added, more, Run(s, events[..n], rules).ops, Run(s, events, rules).ops, LastTime(events[..n]), events[n].now);
    }
  }

  /** Over every run the table holds the newest of all records there have been, in the order in
      which they were made. */
  lemma RunKeepsNewestRecords(s: State, events: seq<Event>, rules: Rules)
    requires ClockRuns(s.ops, events)
    ensures Run(s, events, rules).ops == Kept(s.ops, Added(s, events, rules))
    ensures InTimeOrder(s.ops + Added(s, events, rules))
  {
    RunKeepsTable(s, events, rules);
  }

  /** A record stays as long as it and the newer ones are within the limit, and goes with the next,
      whatever becomes of its id after that. Only the very same record could stand for it. */
  lemma RecordSurvivesIff(s: State, events: seq<Event>, rules: Rules, k: nat)
    requires ClockRuns(s.ops, events) && k < |s.ops|
    requires Unrepeated(s.ops + Added(s, events, rules), k) && |s.ops| <= MAX_OPERATIONS
    ensures s.ops[k] in Run(s, events, rules).ops <==> |s.ops| - k + |Added(s, events, rules)| <= MAX_OPERATIONS
  {
    RunKeepsNewestRecords(s, events, rules);
    var added := Added(s, events, rules);
    assert (s.ops + added)[k] == s.ops[k];
    NewestHoldsIff(s.ops + added, k);
  }

  /** So a repeated operation takes effect once: repeated at any later moment before the limit's
      worth of newer records, whatever both writers did in between, it gives its first answer, and
      nothing but ended leases changes. */
  lemma OperationTakesEffectOnce(s: State, r: Request, now: int, lag: nat, between: seq<Event>, later: int, laterLag: nat, rules: Rules)
    requires Good(s) && IdOf(r).Some? && SignatureFor(r, rules).Some?
    requires ClockRuns(s.ops, [Python(r, now, lag)] + between) && Find(s.ops, IdOf(r).value) == |s.ops|
    requires |Added(Step(s, Python(r, now, lag), rules), between, rules)| < MAX_OPERATIONS
    ensures var after := Run(Step(s, Python(r, now, lag), rules), between, rules);
            Operate(after, r, later, laterLag, rules) ==
            Ok(Outcome(Swept(after, later), Answered(s, Python(r, now, lag), rules).answer))
  {
    var e := Python(r, now, lag);
    var first := Step(s, e, rules);
    var after := Run(first, between, rules);
    StepKeepsGood(s, e, rules);
    RunKeepsGood(first, between, rules);
    var o := NewRecordIsLast(s, r, now, lag, between, rules);
    RunKeepsNewestRecords(first, between, rules);
    LastIsKept(first.ops, Added(first, between, rules));
    RepeatIsAnsweredFromRecord(after, r, later, laterLag, rules, o);
  }

  lemma NewRecord(s: State, r: Request, now: int, lag: nat, rules: Rules)
    requires IdOf(r).Some? && SignatureFor(r, rules).Some? && Find(s.ops, IdOf(r).value) == |s.ops|
    ensures Recorded(s, r, now, lag, rules) ==
            [Operation(IdOf(r).value, now, SignatureFor(r, rules).value, Answered(s, Python(r, now, lag), rules).answer)]
  {
    var swept := Swept(s, now);
    EffectKeepsOps(swept, r, now, lag, rules);
    assert Operate(s, r, now, lag, rules) ==
           Ok(Remember(EffectOf(swept, r, now, lag, rules), IdOf(r), SignatureFor(r, rules).value, now));
  }

  lemma ClockAfter(ops: Operations, o: Operation, e: Event, between: seq<Event>)
    requires ClockRuns(ops, [e] + between) && o.at == e.now
    ensures InTimeOrder(ops + [o]) && ClockRuns(Newest(ops + [o]), between)
  {
    var events, all := [e] + between, ops + [o];
    assert events[0] == e && forall j :: 0 <= j < |between| ==> events[j + 1] == between[j];
    OneMoreInOrder(ops, o);
    SuffixInOrder(all, |all| - |Newest(all)|);
    assert Newest(all) == all[|all| - |Newest(all)|..];
    forall i, j | 0 <= i < |all| && 0 <= j < |between| ensures all[i].at <= between[j].now {
      assert events[j + 1] == between[j];
    }
  }

  lemma NewRecordIsLast(s: State, r: Request, now: int, lag: nat, between: seq<Event>, rules: Rules) returns (o: Operation)
    requires IdOf(r).Some? && SignatureFor(r, rules).Some?
    requires ClockRuns(s.ops, [Python(r, now, lag)] + between) && Find(s.ops, IdOf(r).value) == |s.ops|
    ensures var first := Step(s, Python(r, now, lag), rules);
            first.ops != [] && first.ops[|first.ops| - 1] == o && ClockRuns(first.ops, between)
    ensures o == Operation(IdOf(r).value, now, SignatureFor(r, rules).value, Answered(s, Python(r, now, lag), rules).answer)
  {
    var e := Python(r, now, lag);
    NewRecord(s, r, now, lag, rules);
    o := Recorded(s, r, now, lag, rules)[0];
    assert Recording(s, e, rules) == [o];
    StepOps(s, e, rules);
    ClockAfter(s.ops, o, e, between);
    PrunedIsNewest(s.ops + [o]);
  }

  lemma LastIsKept(ops: Operations, added: Operations)
    requires ops != [] && |added| < MAX_OPERATIONS
    ensures ops[|ops| - 1] in Kept(ops, added)
  {
    var all := ops + added;
    var kept := Kept(ops, added);
    if added != [] {
      var cut := |all| - |kept|;
      assert kept[|ops| - 1 - cut] == all[|ops| - 1];
    }
  }
}
