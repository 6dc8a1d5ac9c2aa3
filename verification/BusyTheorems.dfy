/** What one operation does with operation ids: a kept record answers it, a new one is remembered. */
module BusyTheorems {
  import opened Basics
  import opened BusyHistory
  import opened BusyOperations

  // ----- operation ids -----

  function IdOf(r: Request): Option<string> {
    if r.Recover? || r.Act? then Filled(r.id) else None
  }

  /** What the operation is recorded as; nothing for a read or a malformed request. */
  function SignatureFor(r: Request, rules: Rules): Option<Signature> {
    if !(r.Recover? || r.Act?) || r.scope.None? || rules.canon(r.scope.value).None? then None
    else
      var scope := rules.canon(r.scope.value).value;
      if r.Recover? then
        if r.owner.None? || r.timestamp.None? then None else Some(RecoverSignature(r.owner.value, scope, r.timestamp.value))
      else
        match ActingAs(r.command, r.actor, rules)
        case Err(_) => None
        case Ok(name) => Some(SignatureOf(r.command, scope, name, r.leaseSeconds, r.checkpoint))
  }

  lemma FindRecord(ops: Operations, o: Operation)
    requires Distinct(ops) && o in ops
    ensures Find(ops, o.id) < |ops| && ops[Find(ops, o.id)] == o
  {
    var i :| 0 <= i < |ops| && ops[i] == o;
    assert ops[i].id == o.id;
  }

  /** While the record is kept, repeating the id changes nothing but what expiry changes: with the
      same signature it returns the stored answer, with another it is refused. */
  lemma RepeatIsAnsweredFromRecord(s: State, r: Request, now: int, lag: nat, rules: Rules, o: Operation)
    requires Good(s) && o in s.ops && IdOf(r) == Some(o.id) && SignatureFor(r, rules).Some?
    ensures Operate(s, r, now, lag, rules) ==
            Ok(Outcome(Swept(s, now), if SignatureFor(r, rules) == Some(o.signature) then o.answer else IdempotencyConflict(o.id)))
  {
    FindRecord(s.ops, o);
    assert Swept(s, now).ops == s.ops;
    assert Replay(s.ops, Some(o.id), SignatureFor(r, rules).value) ==
           Some(if SignatureFor(r, rules).value == o.signature then o.answer else IdempotencyConflict(o.id));
  }

  /** With a clock that does not go back, a new id is remembered as the newest record, whatever is pruned. */
  lemma NewIdIsRemembered(s: State, r: Request, now: int, lag: nat, rules: Rules)
    requires Good(s) && IdOf(r).Some? && SignatureFor(r, rules).Some?
    requires forall i :: 0 <= i < |s.ops| ==> s.ops[i].at <= now && s.ops[i].id != IdOf(r).value
    ensures Operate(s, r, now, lag, rules).Ok?
    ensures var o := Operate(s, r, now, lag, rules).value;
            Operation(IdOf(r).value, now, SignatureFor(r, rules).value, o.answer) in o.state.ops
  {
    var swept := Swept(s, now);
    var outcome := Operate(s, r, now, lag, rules);
    var effect := EffectOf(swept, r, now, lag, rules);
    var entry := Operation(IdOf(r).value, now, SignatureFor(r, rules).value, effect.answer);
    EffectKeepsOps(swept, r, now, lag, rules);
    assert outcome == Ok(Remember(effect, IdOf(r), SignatureFor(r, rules).value, now));
    NewestSurvives(s.ops + [entry]);
  }

  /** What the operation would do if its id were new. */
  function EffectOf(s: State, r: Request, now: int, lag: nat, rules: Rules): Outcome
    requires SignatureFor(r, rules).Some?
  {
    var scope := rules.canon(r.scope.value).value;
    match r
    case Recover(_, owner, timestamp, _) => RecoverEffect(s, scope, owner.value, timestamp.value)
    case Act(command, raw, actor, lease, checkpoint, _) =>
      ActEffect(s, command, scope, ActingAs(command, actor, rules).value, CappedLeaseSeconds(lease), checkpoint, rules.ambiguous(raw.value), now, lag)
  }

  lemma EffectKeepsOps(s: State, r: Request, now: int, lag: nat, rules: Rules)
    requires SignatureFor(r, rules).Some?
    ensures EffectOf(s, r, now, lag, rules).state.ops == s.ops
  {
  }

  /** An operation never changes a record and adds at most its own; the table is within its limit
      after every operation that adds one, and stays there. */
  lemma RecordsAreNeverRewritten(s: State, r: Request, now: int, lag: nat, rules: Rules, o: Operation)
    requires Good(s) && Operate(s, r, now, lag, rules).Ok?
    ensures var after := Operate(s, r, now, lag, rules).value.state.ops;
            && (o in after ==> o in s.ops || (Some(o.id) == IdOf(r) && o.at == now && Find(s.ops, o.id) == |s.ops|))
            && (after == s.ops || |after| <= MAX_OPERATIONS)
  {
    var swept := Swept(s, now);
    assert swept.ops == s.ops;
    if SignatureFor(r, rules).Some? {
      EffectKeepsOps(swept, r, now, lag, rules);
      var effect := EffectOf(swept, r, now, lag, rules);
      var after := Operate(s, r, now, lag, rules).value;
      if IdOf(r).Some? && Find(s.ops, IdOf(r).value) == |s.ops| {
        var entry := Operation(IdOf(r).value, now, SignatureFor(r, rules).value, effect.answer);
        assert after.state.ops == Pruned(s.ops + [entry]);
        if o in after.state.ops {
          PruningKeepsNewest(s.ops + [entry], o, o);
        }
      }
    }
  }

  /** The record an operation adds, if it adds one. */
  function Recorded(s: State, r: Request, now: int, lag: nat, rules: Rules): Operations {
    if IdOf(r).None? || SignatureFor(r, rules).None? || Find(s.ops, IdOf(r).value) < |s.ops| then []
    else [Operation(IdOf(r).value, now, SignatureFor(r, rules).value, EffectOf(Swept(s, now), r, now, lag, rules).answer)]
  }

  lemma OpsAfter(s: State, r: Request, now: int, lag: nat, rules: Rules)
    requires Operate(s, r, now, lag, rules).Ok?
    ensures Operate(s, r, now, lag, rules).value.state.ops ==
            if Recorded(s, r, now, lag, rules) == [] then s.ops else Pruned(s.ops + Recorded(s, r, now, lag, rules))
  {
    var swept := Swept(s, now);
    assert swept.ops == s.ops;
    if SignatureFor(r, rules).Some? {
      EffectKeepsOps(swept, r, now, lag, rules);
    }
  }
}
