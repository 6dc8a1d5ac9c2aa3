/** One operation of the Python coordinator, from the loaded and normalised state to the state it
    stores and the answer it gives. It reads the clock for the claim time and, `lag` milliseconds
    later, once more for the lease. */
module BusyOperations {
  import opened Basics
  import opened BusyRecords
  import opened BusyBoard
  import opened BusyHistory

  const MAX_LEASE_S := 240

  datatype State = State(claims: Claims, jobs: Jobs, ops: Operations)

  /** How the Python writer names scopes, how the TypeScript writer does, and how actors are read;
      see BusyScopes. */
  datatype Rules = Rules(canon: Canon, tsCanon: Canon, ambiguous: string -> bool, validActor: string -> Option<string>)

  datatype Request =
    | Look
    | Inspect(scope: Option<string>)
    | Recover(scope: Option<string>, owner: Option<string>, timestamp: Option<int>, id: Option<string>)
    | Act(command: Command, scope: Option<string>, actor: Option<string>, leaseSeconds: int, checkpoint: Option<string>, id: Option<string>)

  datatype Error = LoadFailed(cause: LoadError) | ScopeRequired | BlankScope | BlankKey | OwnerRequired | TimestampRequired | ActorRequired | BadActor

  datatype Outcome = Outcome(state: State, answer: Answer)

  function CappedLeaseSeconds(value: int): (r: int)
    ensures 1 <= r <= MAX_LEASE_S
  {
    Max(1, Min(value, MAX_LEASE_S))
  }

  /** An empty text counts as none. */
  function Filled(text: Option<string>): Option<string> {
    if text == Some("") then None else text
  }

  function Ended(jobs: Jobs, now: int): set<string> {
    set scope | scope in jobs && jobs[scope].lease <= now
  }

  /** Ended leases go, with the claims they stand for. */
  function Swept(s: State, now: int): State {
    var ended := Ended(s.jobs, now);
    s.(claims := map scope | scope in s.claims && !(scope in ended && s.claims[scope].actor == s.jobs[scope].owner) :: s.claims[scope],
       jobs := s.jobs - ended)
  }

  function CheckpointOf(s: State, scope: string): Option<string> {
    if scope in s.jobs then s.jobs[scope].checkpoint else None
  }

  function Held(s: State, scope: string, actor: string, leaseSeconds: int, checkpoint: Option<string>, now: int, lag: nat): State {
    s.(claims := s.claims[scope := Holder(actor, now)],
       jobs := s.jobs[scope := Job(scope, actor, now + lag + 1000 * leaseSeconds, now,
                                   if checkpoint.Some? then checkpoint else CheckpointOf(s, scope))])
  }

  function Freed(s: State, scope: string): State {
    s.(claims := s.claims - {scope}, jobs := s.jobs - {scope})
  }

  function ClaimEffect(s: State, scope: string, actor: string, leaseSeconds: int, checkpoint: Option<string>, ambiguous: bool, now: int, lag: nat): Outcome {
    if scope !in s.claims && ambiguous then Outcome(s, AmbiguousScope(scope))
    else if scope in s.claims && s.claims[scope].actor != actor then Outcome(s, AlreadyClaimed(scope, s.claims[scope]))
    else Outcome(Held(s, scope, actor, leaseSeconds, checkpoint, now, lag), Claimed(scope, Holder(actor, now)))
  }

  function HeartbeatEffect(s: State, scope: string, actor: string, leaseSeconds: int, checkpoint: Option<string>, now: int, lag: nat): Outcome {
    if scope !in s.claims then Outcome(s, NotClaimed)
    else if s.claims[scope].actor != actor then Outcome(s, OtherActor(scope, s.claims[scope]))
    else Outcome(Held(s, scope, actor, leaseSeconds, checkpoint, now, lag), Claimed(scope, Holder(actor, now)))
  }

  function ReleaseEffect(s: State, scope: string, actor: string, checkpoint: Option<string>): Outcome {
    if scope !in s.claims then Outcome(s, NotClaimed)
    else if s.claims[scope].actor != actor then Outcome(s, OtherActor(scope, s.claims[scope]))
    else Outcome(Freed(s, scope), Released(scope, s.claims[scope], Filled(checkpoint)))
  }

  /** Recovery is compare-and-swap: only the very claim the caller saw is removed. */
  function RecoverEffect(s: State, scope: string, owner: string, timestamp: int): Outcome {
    if scope !in s.claims then Outcome(s, NotClaimed)
    else if s.claims[scope] != Holder(owner, timestamp) then Outcome(s, ClaimChanged(scope, s.claims[scope]))
    else Outcome(Freed(s, scope), Recovered(scope, s.claims[scope], Filled(CheckpointOf(s, scope))))
  }

  function ActEffect(s: State, command: Command, scope: string, actor: string, leaseSeconds: int, checkpoint: Option<string>,
                     ambiguous: bool, now: int, lag: nat): Outcome {
    match command
    case Claim => ClaimEffect(s, scope, actor, leaseSeconds, checkpoint, ambiguous, now, lag)
    case Heartbeat => HeartbeatEffect(s, scope, actor, leaseSeconds, checkpoint, now, lag)
    case Release => ReleaseEffect(s, scope, actor, checkpoint)
  }

  /** The stored answer of an operation id already used, or a refusal if it was used for something else. */
  function Replay(ops: Operations, id: Option<string>, signature: Signature): Option<Answer> {
    if Filled(id).None? then None
    else
      var n := Find(ops, id.value);
      if n == |ops| then None
      else if ops[n].signature != signature then Some(IdempotencyConflict(id.value))
      else Some(ops[n].answer)
  }

  function Remember(o: Outcome, id: Option<string>, signature: Signature, now: int): Outcome {
    if Filled(id).None? then o
    else o.(state := o.state.(ops := Remembered(o.state.ops, Operation(id.value, now, signature, o.answer))))
  }

  function Once(s: State, id: Option<string>, signature: Signature, now: int, effect: Outcome): Outcome {
    match Replay(s.ops, id, signature)
    case Some(answer) => Outcome(s, answer)
    case None => Remember(effect, id, signature, now)
  }

  /** Who acts, once checked: claims and heartbeats need a well-formed actor. */
  function ActingAs(command: Command, actor: Option<string>, rules: Rules): Result<string, Error> {
    if actor.None? then Err(ActorRequired)
    else if command == Release then Ok(actor.value)
    else
      match rules.validActor(actor.value)
      case None => Err(BadActor)
      case Some(value) => Ok(value)
  }

  function SignatureOf(command: Command, scope: string, actor: string, leaseSeconds: int, checkpoint: Option<string>): Signature {
    ActSignature(command, scope, actor, if command == Release then None else Some(CappedLeaseSeconds(leaseSeconds)), checkpoint)
  }

  /** What an operation makes of the swept state. */
  function Perform(s: State, r: Request, now: int, lag: nat, rules: Rules): Result<Outcome, Error> {
    if r.Look? then Ok(Outcome(s, Report))
    else if r.scope.None? then Err(ScopeRequired)
    else
      match rules.canon(r.scope.value)
      case None => Err(BlankScope)
      case Some(scope) =>
        match r
        case Inspect(_) => Ok(Outcome(s, Report))
        case Recover(_, owner, timestamp, id) =>
          if owner.None? then Err(OwnerRequired)
          else if timestamp.None? then Err(TimestampRequired)
          else Ok(Once(s, id, RecoverSignature(owner.value, scope, timestamp.value), now,
                       RecoverEffect(s, scope, owner.value, timestamp.value)))
        case Act(command, raw, actor, lease, checkpoint, id) =>
          match ActingAs(command, actor, rules)
          case Err(e) => Err(e)
          case Ok(name) =>
            Ok(Once(s, id, SignatureOf(command, scope, name, lease, checkpoint), now,
                    ActEffect(s, command, scope, name, CappedLeaseSeconds(lease), checkpoint, rules.ambiguous(raw.value), now, lag)))
  }

  function Operate(s: State, r: Request, now: int, lag: nat, rules: Rules): Result<Outcome, Error> {
    Perform(Swept(s, now), r, now, lag, rules)
  }

  /** The state as the next reading of what was stored has it. */
  function Recap(s: State): State {
    s.(jobs := Recapped(s.jobs))
  }

  // ----- what every operation keeps -----

  /** A state as it may be stored: one fitting job a claim, and no operation id twice. */
  ghost predicate Orderly(s: State) {
    Matched(s.claims, s.jobs) && Distinct(s.ops)
  }

  /** A state as it is read: with leases within the cap. */
  ghost predicate Good(s: State) {
    Orderly(s) && Capped(s.jobs)
  }

  lemma RecapIsGood(s: State)
    requires Orderly(s)
    ensures Good(Recap(s)) && (Capped(s.jobs) ==> Recap(s) == s)
  {
    CappedStays(s.jobs);
  }

  lemma SweptIsGood(s: State, now: int)
    requires Good(s)
    ensures Good(Swept(s, now))
    ensures forall scope :: scope in s.claims ==> (scope in Swept(s, now).claims <==> s.jobs[scope].lease > now)
    ensures forall scope :: scope in Swept(s, now).claims ==>
              scope in s.claims && Swept(s, now).claims[scope] == s.claims[scope] && Swept(s, now).jobs[scope] == s.jobs[scope]
  {
  }

  lemma HeldIsOrderly(s: State, scope: string, actor: string, leaseSeconds: int, checkpoint: Option<string>, now: int, lag: nat)
    requires Good(s)
    ensures Orderly(Held(s, scope, actor, leaseSeconds, checkpoint, now, lag))
    ensures Capped(Held(s, scope, actor, leaseSeconds, checkpoint, now, lag).jobs) <==> lag + 1000 * leaseSeconds <= LEASE_CAP_MS
  {
    var after := Held(s, scope, actor, leaseSeconds, checkpoint, now, lag);
    assert after.jobs[scope].lease == now + lag + 1000 * leaseSeconds;
  }

  lemma FreedIsGood(s: State, scope: string)
    requires Good(s)
    ensures Good(Freed(s, scope))
  {
  }

  lemma ActEffectIsOrderly(s: State, command: Command, scope: string, actor: string, leaseSeconds: int, checkpoint: Option<string>,
                           ambiguous: bool, now: int, lag: nat)
    requires Good(s)
    ensures var o := ActEffect(s, command, scope, actor, leaseSeconds, checkpoint, ambiguous, now, lag);
            && Orderly(o.state) && o.state.ops == s.ops
            && (Capped(o.state.jobs) <==> !(o.answer.Claimed? && lag + 1000 * leaseSeconds > LEASE_CAP_MS))
  {
    HeldIsOrderly(s, scope, actor, leaseSeconds, checkpoint, now, lag);
    FreedIsGood(s, scope);
  }

  lemma OnceIsOrderly(s: State, id: Option<string>, signature: Signature, now: int, effect: Outcome)
    requires Good(s) && Orderly(effect.state) && effect.state.ops == s.ops
    ensures Orderly(Once(s, id, signature, now, effect).state)
    ensures Capped(Once(s, id, signature, now, effect).state.jobs) <==> (Replay(s.ops, id, signature).Some? || Capped(effect.state.jobs))
  {
    if Filled(id).Some? && Find(s.ops, id.value) == |s.ops| {
      var o := Operation(id.value, now, signature, effect.answer);
      assert Distinct(s.ops + [o]);
      PruningKeepsDistinct(s.ops + [o]);
    }
  }

  /** After every operation the job table has exactly the claimed scopes, each with its owner and
      claim time, and no operation id is recorded twice; once read again its leases are within the cap. */
  lemma OperationKeepsGood(s: State, r: Request, now: int, lag: nat, rules: Rules)
    requires Good(s)
    ensures var o := Operate(s, r, now, lag, rules);
            o.Ok? ==> Orderly(o.value.state) && Good(Recap(o.value.state))
  {
    var swept := Swept(s, now);
    SweptIsGood(s, now);
    PerformKeepsOrder(swept, r, now, lag, rules);
    var o := Operate(s, r, now, lag, rules);
    if o.Ok? {
      RecapIsGood(o.value.state);
    }
  }

  lemma PerformKeepsOrder(s: State, r: Request, now: int, lag: nat, rules: Rules)
    requires Good(s)
    ensures Perform(s, r, now, lag, rules).Ok? ==> Orderly(Perform(s, r, now, lag, rules).value.state)
  {
    if !r.Look? && r.scope.Some? && rules.canon(r.scope.value).Some? {
      var scope := rules.canon(r.scope.value).value;
      match r
      case Recover(_, owner, timestamp, id) =>
        if owner.Some? && timestamp.Some? {
          FreedIsGood(s, scope);
          OnceIsOrderly(s, id, RecoverSignature(owner.value, scope, timestamp.value), now,
                        RecoverEffect(s, scope, owner.value, timestamp.value));
        }
      case Act(command, raw, actor, lease, checkpoint, id) =>
        var name := ActingAs(command, actor, rules);
        if name.Ok? {
          var effect := ActEffect(s, command, scope, name.value, CappedLeaseSeconds(lease), checkpoint, rules.ambiguous(raw.value), now, lag);
          ActEffectIsOrderly(s, command, scope, name.value, CappedLeaseSeconds(lease), checkpoint, rules.ambiguous(raw.value), now, lag);
          OnceIsOrderly(s, id, SignatureOf(command, scope, name.value, lease, checkpoint), now, effect);
        }
      case _ =>
    }
  }
}
