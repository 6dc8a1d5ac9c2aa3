/** What an operation of either writer answers and leaves, told from the state before it: which
    leases run, and who holds them. */
module BusyOutcomes {
  import opened Basics
  import opened BusyRecords
  import opened BusyBoard
  import opened BusyHistory
  import opened BusyOperations
  import opened BusyTheorems
  import opened BusyWriters

  /** Claim and job of the scope are as before if its lease runs, and gone if it has ended. */
  ghost predicate OnlyExpired(s: State, after: State, scope: string, now: int) {
    && (scope in after.claims <==> Running(s, scope, now)) && (scope in after.jobs <==> Running(s, scope, now))
    && (Running(s, scope, now) ==> after.claims[scope] == s.claims[scope] && after.jobs[scope] == s.jobs[scope])
  }

  ghost predicate Gone(after: State, scope: string) {
    scope !in after.claims && scope !in after.jobs
  }

  /** Who holds the scope while its lease runs. */
  function HolderAt(s: State, scope: string, now: int): Option<Holder> {
    if Running(s, scope, now) then Some(s.claims[scope]) else None
  }

  function NoBlank(text: Option<string>): Option<string> {
    if text.Some? && text.value == "" then None else text
  }

  /** The answer to a request that no record answers. */
  function AnswerTo(s: State, r: Request, scope: string, actor: string, now: int, rules: Rules): Answer
    requires r.Act? || r.Recover?
    requires r.Act? ==> r.scope.Some?
    requires r.Recover? ==> r.timestamp.Some?
  {
    var holder := HolderAt(s, scope, now);
    if r.Recover? then
      if holder.None? then NotClaimed
      else if holder.value == Holder(actor, r.timestamp.value) then Recovered(scope, holder.value, NoBlank(s.jobs[scope].checkpoint))
      else ClaimChanged(scope, holder.value)
    else if r.command == Claim then
      if holder.None? && rules.ambiguous(r.scope.value) then AmbiguousScope(scope)
      else if holder.Some? && holder.value.actor != actor then AlreadyClaimed(scope, holder.value)
      else Claimed(scope, Holder(actor, now))
    else if holder.None? then NotClaimed
    else if holder.value.actor != actor then OtherActor(scope, holder.value)
    else if r.command == Heartbeat then Claimed(scope, Holder(actor, now))
    else Released(scope, holder.value, NoBlank(r.checkpoint))
  }

  /** The actor that the request names: as it stands for a release and a recovery, as its harness reads
      it for a claim and a heartbeat. */
  function ActorOf(r: Request, rules: Rules): Option<string>
    requires r.Act? || r.Recover?
  {
    if r.Recover? then r.owner
    else if r.actor.None? || r.command == Release then r.actor
    else rules.validActor(r.actor.value)
  }

  /** The seconds a request gets. */
  function LeaseOf(seconds: int): int {
    if seconds < 1 then 1 else if seconds > 240 then 240 else seconds
  }

  /** The scope is held as the answered claim says, the other scopes have at most expired. */
  ghost predicate Granted(s: State, after: State, r: Request, scope: string, actor: string, now: int, lag: nat)
    requires r.Act?
  {
    && scope in after.claims && after.claims[scope] == Holder(actor, now) && scope in after.jobs
    && after.jobs[scope] == Job(scope, actor, now + lag + 1000 * LeaseOf(r.leaseSeconds), now,
                                if r.checkpoint.Some? then r.checkpoint
                                else if Running(s, scope, now) then s.jobs[scope].checkpoint else None)
  }

  /** The outcome of a request that no record answers: a grant holds the scope, a release or a
      recovery frees it, anything else leaves it; of the other scopes, ended leases go. */
  ghost predicate OutcomeIs(s: State, o: Outcome, r: Request, scope: string, actor: string, now: int, lag: nat, rules: Rules)
    requires r.Act? || r.Recover?
    requires r.Act? ==> r.scope.Some?
    requires r.Recover? ==> r.timestamp.Some?
  {
    && o.answer == AnswerTo(s, r, scope, actor, now, rules)
    && (forall other :: other != scope ==> OnlyExpired(s, o.state, other, now))
    && (if r.Act? && o.answer.Claimed? then Granted(s, o.state, r, scope, actor, now, lag)
        else if o.answer.Released? || o.answer.Recovered? then Gone(o.state, scope)
        else OnlyExpired(s, o.state, scope, now))
  }

  ghost predicate AllOnlyExpired(s: State, after: State, now: int) {
    forall scope :: OnlyExpired(s, after, scope, now)
  }

  lemma SweptOnlyExpires(s: State, now: int)
    requires Good(s)
    ensures AllOnlyExpired(s, Swept(s, now), now)
  {
    forall scope ensures OnlyExpired(s, Swept(s, now), scope, now) {
      if scope in s.claims {
        assert Fits(scope, s.claims[scope], s.jobs[scope]);
      }
    }
  }

  lemma RecoverAnswers(s: State, swept: State, r: Request, scope: string, now: int, lag: nat, rules: Rules)
    requires AllOnlyExpired(s, swept, now) && r.Recover? && r.owner.Some? && r.timestamp.Some?
    ensures OutcomeIs(s, RecoverEffect(swept, scope, r.owner.value, r.timestamp.value), r, scope, r.owner.value, now, lag, rules)
  {
    assert OnlyExpired(s, swept, scope, now);
    var o := RecoverEffect(swept, scope, r.owner.value, r.timestamp.value);
    forall other | other != scope ensures OnlyExpired(s, o.state, other, now) {
      assert OnlyExpired(s, swept, other, now);
    }
  }

  lemma ActAnswers(s: State, swept: State, r: Request, scope: string, actor: string, now: int, lag: nat, rules: Rules)
    requires AllOnlyExpired(s, swept, now) && r.Act? && r.scope.Some?
    ensures OutcomeIs(s, ActEffect(swept, r.command, scope, actor, CappedLeaseSeconds(r.leaseSeconds), r.checkpoint,
                                   rules.ambiguous(r.scope.value), now, lag),
                      r, scope, actor, now, lag, rules)
  {
    assert OnlyExpired(s, swept, scope, now);
    var o := ActEffect(swept, r.command, scope, actor, CappedLeaseSeconds(r.leaseSeconds), r.checkpoint, rules.ambiguous(r.scope.value), now, lag);
    forall other | other != scope ensures OnlyExpired(s, o.state, other, now) {
      assert OnlyExpired(s, swept, other, now);
    }
  }

  lemma RememberKeepsBoard(o: Outcome, id: Option<string>, signature: Signature, now: int)
    ensures var after := Remember(o, id, signature, now);
            after.answer == o.answer && after.state.claims == o.state.claims && after.state.jobs == o.state.jobs
  {
  }

  /** The whole outcome of a request of the coordinator that no record answers. */
  lemma PythonOutcome(s: State, r: Request, now: int, lag: nat, rules: Rules)
    requires Good(s) && SignatureFor(r, rules).Some? && Replay(s.ops, r.id, SignatureFor(r, rules).value).None?
    ensures Operate(s, r, now, lag, rules).Ok? && ActorOf(r, rules).Some?
    ensures OutcomeIs(s, Operate(s, r, now, lag, rules).value, r, rules.canon(r.scope.value).value, ActorOf(r, rules).value, now, lag, rules)
  {
    var swept, scope := Swept(s, now), rules.canon(r.scope.value).value;
    var effect := EffectOf(swept, r, now, lag, rules);
    SweptOnlyExpires(s, now);
    assert OutcomeIs(s, effect, r, scope, ActorOf(r, rules).value, now, lag, rules) by {
      if r.Recover? {
        RecoverAnswers(s, swept, r, scope, now, lag, rules);
      } else {
        ActAnswers(s, swept, r, scope, ActorOf(r, rules).value, now, lag, rules);
      }
    }
    SignedIsOnce(s, r, now, lag, rules);
    RememberKeepsBoard(effect, r.id, SignatureFor(r, rules).value, now);
    SameBoard(s, effect, Operate(s, r, now, lag, rules).value, r, scope, ActorOf(r, rules).value, now, lag, rules);
  }

  lemma SameBoard(s: State, a: Outcome, b: Outcome, r: Request, scope: string, actor: string, now: int, lag: nat, rules: Rules)
    requires r.Act? || r.Recover?
    requires r.Act? ==> r.scope.Some?
    requires r.Recover? ==> r.timestamp.Some?
    requires OutcomeIs(s, a, r, scope, actor, now, lag, rules)
    requires a.answer == b.answer && a.state.claims == b.state.claims && a.state.jobs == b.state.jobs
    ensures OutcomeIs(s, b, r, scope, actor, now, lag, rules)
  {
    forall other | other != scope ensures OnlyExpired(s, b.state, other, now) {
      assert OnlyExpired(s, a.state, other, now);
    }
  }

  // ----- requests that fail, that only read, and that repeat -----

  /** Which requests fail, and with what: the first of what they lack. */
  lemma OperationFailsIff(s: State, r: Request, now: int, lag: nat, rules: Rules)
    ensures var o := Operate(s, r, now, lag, rules);
            var named := !r.Look? && r.scope.Some? && rules.canon(r.scope.value).Some?;
            && (o == Err(ScopeRequired) <==> !r.Look? && r.scope.None?)
            && (o == Err(BlankScope) <==> !r.Look? && r.scope.Some? && rules.canon(r.scope.value).None?)
            && (o == Err(OwnerRequired) <==> named && r.Recover? && r.owner.None?)
            && (o == Err(TimestampRequired) <==> named && r.Recover? && r.owner.Some? && r.timestamp.None?)
            && (o == Err(ActorRequired) <==> named && r.Act? && r.actor.None?)
            && (o == Err(BadActor) <==> named && r.Act? && r.actor.Some? && r.command != Release && rules.validActor(r.actor.value).None?)
            && (o.Err? ==> o.error in {ScopeRequired, BlankScope, OwnerRequired, TimestampRequired, ActorRequired, BadActor})
  {
  }

  /** A request that only reads changes nothing but what has expired. */
  lemma ReadingOnlyExpires(s: State, r: Request, now: int, lag: nat, rules: Rules)
    requires Good(s) && (r.Look? || r.Inspect?) && Operate(s, r, now, lag, rules).Ok?
    ensures var o := Operate(s, r, now, lag, rules).value;
            o.answer == Report && AllOnlyExpired(s, o.state, now) && o.state.ops == s.ops
  {
    SweptOnlyExpires(s, now);
  }

  /** A request carries a signature exactly when it is a complete one that may change something. */
  lemma SignedIff(r: Request, rules: Rules)
    ensures SignatureFor(r, rules).Some? <==>
            && (r.Act? || r.Recover?) && r.scope.Some? && rules.canon(r.scope.value).Some?
            && ActorOf(r, rules).Some? && (r.Recover? ==> r.timestamp.Some?)
  {
  }

  /** Two requests are the same operation exactly when they agree in all that matters to it. */
  lemma SameOperationIff(a: Request, b: Request, rules: Rules)
    requires SignatureFor(a, rules).Some? && SignatureFor(b, rules).Some?
    ensures SignatureFor(a, rules) == SignatureFor(b, rules) <==>
            && rules.canon(a.scope.value) == rules.canon(b.scope.value) && ActorOf(a, rules) == ActorOf(b, rules)
            && (a.Recover? <==> b.Recover?)
            && (a.Recover? && b.Recover? ==> a.timestamp == b.timestamp)
            && (a.Act? && b.Act? ==>
                  && a.command == b.command && a.checkpoint == b.checkpoint
                  && (a.command != Release ==> LeaseOf(a.leaseSeconds) == LeaseOf(b.leaseSeconds)))
  {
  }

  // ----- the TypeScript writer -----

  /** The claim has not reached the collision lease's age, whatever lease its job names. */
  predicate Young(s: State, scope: string, now: int) {
    scope in s.claims && now - s.claims[scope].timestamp < LEASE_CAP_MS
  }

  /** Claim and job of the scope are as before if the claim is young, and gone otherwise. */
  ghost predicate OnlyAged(s: State, after: State, scope: string, now: int) {
    && (scope in after.claims <==> Young(s, scope, now)) && (scope in after.jobs <==> Young(s, scope, now))
    && (Young(s, scope, now) ==> scope in s.jobs && after.claims[scope] == s.claims[scope] && after.jobs[scope] == s.jobs[scope])
  }

  /** The whole outcome of a claim or a release by the TypeScript writer. */
  lemma TypeScriptOutcome(s: State, r: TsRequest, now: int, scope: string, canon: Canon)
    requires Good(s) && !r.TsList? && canon(r.scope) == Some(scope)
    ensures var o := TsOperate(s, r, now, canon);
            var mine := Young(s, scope, now) && s.claims[scope].actor == r.actor;
            && o.state.ops == s.ops
            && (forall other :: other != scope ==> OnlyAged(s, o.state, other, now))
            && (if r.TsClaim? && (mine || !Young(s, scope, now)) then
                  && o.answer == Claimed(scope, Holder(r.actor, now))
                  && scope in o.state.claims && o.state.claims[scope] == Holder(r.actor, now) && scope in o.state.jobs
                  && o.state.jobs[scope] == Job(scope, r.actor, now + LEASE_CAP_MS, now, if mine then s.jobs[scope].checkpoint else None)
                else if r.TsRelease? && mine then
                  o.answer == Released(scope, s.claims[scope], None) && Gone(o.state, scope)
                else
                  && o.answer == (if !Young(s, scope, now) then NotClaimed
                                  else if r.TsClaim? then AlreadyClaimed(scope, s.claims[scope]) else OtherActor(scope, s.claims[scope]))
                  && OnlyAged(s, o.state, scope, now))
  {
    RefreshedOnlyAges(s, now);
    var refreshed := Refreshed(s, now);
    assert OnlyAged(s, refreshed, scope, now);
    forall other | other != scope ensures OnlyAged(s, TsOperate(s, r, now, canon).state, other, now) {
      assert OnlyAged(s, refreshed, other, now);
    }
  }

  lemma RefreshedOnlyAges(s: State, now: int)
    requires Good(s)
    ensures forall scope :: OnlyAged(s, Refreshed(s, now), scope, now)
  {
    forall scope ensures OnlyAged(s, Refreshed(s, now), scope, now) {
      if scope in s.claims {
        assert Fits(scope, s.claims[scope], s.jobs[scope]);
      }
    }
  }

  // ----- releases and recoveries -----

  /** The event releases or recovers the scope: it is no repetition, and it names the actor whose
      lease runs or, for a recovery, the very claim. */
  predicate Frees(s: State, e: Event, scope: string, rules: Rules) {
    match e
    case Python(Act(Release, Some(raw), Some(actor), lease, checkpoint, id), now, _) =>
      && rules.canon(raw) == Some(scope) && Running(s, scope, now) && s.claims[scope].actor == actor
      && Replay(s.ops, id, SignatureOf(Release, scope, actor, lease, checkpoint)).None?
    case Python(Recover(Some(raw), Some(owner), Some(timestamp), id), now, _) =>
      && rules.canon(raw) == Some(scope) && Running(s, scope, now) && s.claims[scope] == Holder(owner, timestamp)
      && Replay(s.ops, id, RecoverSignature(owner, scope, timestamp)).None?
    case TypeScript(TsRelease(actor, raw), now) =>
      rules.tsCanon(raw) == Some(scope) && Young(s, scope, now) && s.claims[scope].actor == actor
    case _ => false
  }

  lemma RecapKeepsScopes(s: State)
    ensures Recap(s).claims == s.claims && Recap(s).jobs.Keys == s.jobs.Keys
  {
  }

  /** Such an event is answered with exactly the claim it ends, and neither claim nor job is left. */
  lemma FreeingFrees(s: State, e: Event, scope: string, rules: Rules)
    requires Good(s) && Frees(s, e, scope, rules)
    ensures scope in s.claims && scope in s.jobs && Gone(Step(s, e, rules), scope)
    ensures var answer := Answered(s, e, rules).answer;
            (answer.Released? || answer.Recovered?) && answer.scope == scope && answer.holder == s.claims[scope]
  {
    match e
    case Python(r, now, lag) => PythonOutcome(s, r, now, lag, rules);
    case TypeScript(r, now) => TypeScriptOutcome(s, r, now, scope, rules.tsCanon);
    RecapKeepsScopes(Answered(s, e, rules).state);
  }

  /** Then whoever asks next for the scope is granted it, by either writer, at any time. */
  lemma FreedScopeIsGranted(s: State, e: Event, scope: string, next: Event, actor: string, rules: Rules)
    requires Good(s) && Frees(s, e, scope, rules)
    requires match next
             case Python(Act(Claim, Some(raw), Some(name), lease, checkpoint, id), _, _) =>
               && rules.canon(raw) == Some(scope) && !rules.ambiguous(raw) && name == actor && rules.validActor(actor) == Some(actor)
               && Replay(Step(s, e, rules).ops, id, SignatureOf(Claim, scope, actor, lease, checkpoint)).None?
             case TypeScript(TsClaim(name, raw), _) => rules.tsCanon(raw) == Some(scope) && name == actor
             case _ => false
    ensures Grants(Step(s, e, rules), next, scope, actor, rules)
  {
    var after := Step(s, e, rules);
    FreeingFrees(s, e, scope, rules);
    StepKeepsGood(s, e, rules);
    match next
    case Python(Act(Claim, Some(raw), Some(name), lease, checkpoint, id), now, lag) =>
      ClaimIsGrantedIff(after, raw, scope, actor, lease, checkpoint, id, now, lag, rules);
    case TypeScript(TsClaim(name, raw), now) =>
      TypeScriptGrantsIff(after, raw, scope, actor, now, rules);
  }

  predicate IsEnding(e: Event) {
    match e
    case Python(r, _, _) => r.Recover? || (r.Act? && r.command == Release)
    case TypeScript(r, _) => r.TsRelease?
  }

  /** A release or a recovery that is not such an event, a repeated one included, leaves every scope
      as it is, but for what has expired. */
  lemma OtherEndingsEndNothing(s: State, e: Event, scope: string, rules: Rules)
    requires Good(s) && IsEnding(e) && !Frees(s, e, scope, rules)
    ensures var after := Answered(s, e, rules).state;
            match e
            case Python(r, now, lag) =>
              if SignatureFor(r, rules).Some? then OnlyExpired(s, after, scope, now)
              else after.claims == s.claims && after.jobs == s.jobs
            case TypeScript(r, now) => OnlyAged(s, after, scope, now)
  {
    match e
    case Python(r, now, lag) =>
      if SignatureFor(r, rules).Some? {
        EndingOutcome(s, r, now, lag, scope, rules);
      }
    case TypeScript(r, now) =>
      RefreshedOnlyAges(s, now);
      if rules.tsCanon(r.scope).Some? {
        TypeScriptOutcome(s, r, now, rules.tsCanon(r.scope).value, rules.tsCanon);
      }
  }

  lemma EndingOutcome(s: State, r: Request, now: int, lag: nat, scope: string, rules: Rules)
    requires Good(s) && (r.Recover? || (r.Act? && r.command == Release)) && SignatureFor(r, rules).Some?
    requires !Frees(s, Python(r, now, lag), scope, rules)
    ensures Operate(s, r, now, lag, rules).Ok? && OnlyExpired(s, Operate(s, r, now, lag, rules).value.state, scope, now)
  {
    if Replay(s.ops, r.id, SignatureFor(r, rules).value).None? {
      PythonOutcome(s, r, now, lag, rules);
    } else {
      SignedIsOnce(s, r, now, lag, rules);
      SweptOnlyExpires(s, now);
    }
  }
}
