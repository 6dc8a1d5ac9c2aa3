/** Any number of managers sharing one admission directory. Every file operation is one step, and
    steps of different managers interleave freely; managers crash and children outlive them.
    A pid is never used twice. */
module AdmissionRuns {
  import opened Basics
  import opened HostAdmission

  datatype Claim = Claim(managerPid: nat, processId: string)

  /** `held` gathers the slot tables of the live managers; `used` holds every pid ever given out. */
  datatype Host = Host(slots: Slots, live: set<nat>, used: set<nat>, managers: set<nat>, held: map<Claim, nat>)

  datatype Event =
    | StartManager(pid: nat)
    | TryCreate(claim: Claim, index: nat)
    | TryReclaim(index: nat)
    | SpawnChild(pid: nat)
    | RecordChild(claim: Claim, childPid: nat)
    | Release(claim: Claim)
    | Die(pid: nat)

  /** What can happen: new pids are new, a live manager acts, and it claims once for each process. */
  predicate Enabled(h: Host, e: Event, maxLiveTotal: nat) {
    match e
    case StartManager(pid) => pid !in h.used
    case TryCreate(c, index) => c.managerPid in h.managers && c !in h.held && index < maxLiveTotal
    case TryReclaim(index) => true
    case SpawnChild(pid) => pid !in h.used
    case RecordChild(c, childPid) => c.managerPid in h.managers && c in h.held && childPid in h.used
    case Release(c) => c.managerPid in h.managers && c in h.held
    case Die(pid) => pid in h.live
  }

  function Without(held: map<Claim, nat>, pid: nat): map<Claim, nat> {
    map c | c in held && c.managerPid != pid :: held[c]
  }

  function Step(h: Host, e: Event): Host {
    match e
    case StartManager(pid) => h.(live := h.live + {pid}, used := h.used + {pid}, managers := h.managers + {pid})
    case TryCreate(c, index) =>
      if index in h.slots then h
      else h.(slots := Created(h.slots, index, Record(c.processId, c.managerPid, None)), held := h.held[c := index])
    case TryReclaim(index) => h.(slots := Reclaimed(h.slots, h.live, index))
    case SpawnChild(pid) => h.(live := h.live + {pid}, used := h.used + {pid})
    case RecordChild(c, childPid) =>
      if c in h.held then h.(slots := ChildRecorded(h.slots, h.held[c], c.managerPid, c.processId, childPid)) else h
    case Release(c) =>
      if c in h.held then h.(slots := Released(h.slots, h.held[c], c.managerPid, c.processId), held := h.held - {c}) else h
    case Die(pid) => h.(live := h.live - {pid}, managers := h.managers - {pid}, held := Without(h.held, pid))
  }

  ghost predicate Possible(h: Host, events: seq<Event>, maxLiveTotal: nat)
    decreases |events|
  {
    events == [] || (Enabled(h, events[0], maxLiveTotal) && Possible(Step(h, events[0]), events[1..], maxLiveTotal))
  }

  function Run(h: Host, events: seq<Event>): Host
    decreases |events|
  {
    if events == [] then h else Run(Step(h, events[0]), events[1..])
  }

  const EMPTY := Host(map[], {}, {}, {}, map[])

  /** What a live manager's table says, the directory says too. */
  ghost predicate Held(h: Host) {
    forall c :: c in h.held ==> c.managerPid in h.managers && Owns(h.slots, h.held[c], c.managerPid, c.processId)
  }

  ghost predicate Inv(h: Host, maxLiveTotal: nat) {
    && Held(h)
    && h.managers <= h.live <= h.used
    && (forall i :: i in h.slots ==> i < maxLiveTotal && (h.slots[i].Record? ==> h.slots[i].managerPid in h.used))
  }

  /** No slot is in the tables of two live managers, or twice in one of them. */
  lemma OneHolderPerSlot(h: Host, c: Claim, d: Claim)
    requires Held(h) && c in h.held && d in h.held && h.held[c] == h.held[d]
    ensures c == d
  {
  }

  lemma StepKeepsInv(h: Host, e: Event, maxLiveTotal: nat)
    requires Inv(h, maxLiveTotal) && Enabled(h, e, maxLiveTotal)
    ensures Inv(Step(h, e), maxLiveTotal)
  {
    match e
    case Release(c) =>
      forall d | d in h.held && d != c ensures h.held[d] != h.held[c] {
        assert Owns(h.slots, h.held[d], d.managerPid, d.processId);
      }
    case _ =>
  }

  lemma {:induction false} RunKeepsInv(h: Host, events: seq<Event>, maxLiveTotal: nat)
    requires Inv(h, maxLiveTotal) && Possible(h, events, maxLiveTotal)
    ensures Inv(Run(h, events), maxLiveTotal)
    decreases |events|
  {
    if events == [] {
    } else {
      StepKeepsInv(h, events[0], maxLiveTotal);
      RunKeepsInv(Step(h, events[0]), events[1..], maxLiveTotal);
    }
  }

  /** An injective table into the slot numbers below `n` has at most `n` entries. */
  lemma {:induction false} InjectiveTableIsSmall(held: map<Claim, nat>, n: nat)
    requires forall c :: c in held ==> held[c] < n
    requires forall c, d :: c in held && d in held && held[c] == held[d] ==> c == d
    ensures |held| <= n
  {
    if n == 0 {
      assert held.Keys == {};
    } else if c :| c in held && held[c] == n - 1 {
      var rest := held - {c};
      InjectiveTableIsSmall(rest, n - 1);
      assert held == rest[c := n - 1] && c !in rest;
      assert |held| == |rest| + 1;
    } else {
      InjectiveTableIsSmall(held, n - 1);
    }
  }

  lemma {:induction false} NumbersBelow(s: set<nat>, n: nat)
    requires forall i :: i in s ==> i < n
    ensures |s| <= n
  {
    if n == 0 {
      assert s == {};
    } else {
      NumbersBelow(s - {n - 1}, n - 1);
      assert s <= (s - {n - 1}) + {n - 1};
    }
  }

  /** However managers claim, reclaim, release and crash: the processes admitted by live managers
      hold distinct slots, so there are never more of them than the configured total. */
  lemma AdmittedNeverExceedLimit(events: seq<Event>, maxLiveTotal: nat)
    requires Possible(EMPTY, events, maxLiveTotal)
    ensures var h := Run(EMPTY, events);
            && |h.held| <= maxLiveTotal && |h.slots.Keys| <= maxLiveTotal
            && forall c, d :: c in h.held && d in h.held && h.held[c] == h.held[d] ==> c == d
  {
    RunKeepsInv(EMPTY, events, maxLiveTotal);
    var h := Run(EMPTY, events);
    forall c, d | c in h.held && d in h.held && h.held[c] == h.held[d] ensures c == d {
      OneHolderPerSlot(h, c, d);
    }
    forall c | c in h.held ensures h.held[c] < maxLiveTotal {
      assert Owns(h.slots, h.held[c], c.managerPid, c.processId);
    }
    InjectiveTableIsSmall(h.held, maxLiveTotal);
    NumbersBelow(h.slots.Keys, maxLiveTotal);
  }

  // ----- live slots stay -----

  /** The slot was claimed for `c`, and its manager or its recorded child is alive. */
  predicate LiveSlot(h: Host, index: nat, c: Claim) {
    Owns(h.slots, index, c.managerPid, c.processId) && !Stale(h.slots[index], h.live)
  }

  /** As long as one of the two is alive, no step of anyone but the owner's own release removes
      the slot or hands it on. */
  lemma LiveSlotStays(h: Host, e: Event, maxLiveTotal: nat, index: nat, c: Claim)
    requires Inv(h, maxLiveTotal) && Enabled(h, e, maxLiveTotal) && LiveSlot(h, index, c) && e != Release(c)
    ensures Owns(Step(h, e).slots, index, c.managerPid, c.processId)
  {
  }

  /** Over a run: a manager that stays alive keeps every slot it has claimed until it releases it. */
  lemma {:induction false} LiveManagerKeepsSlot(h: Host, events: seq<Event>, maxLiveTotal: nat, c: Claim)
    requires Inv(h, maxLiveTotal) && Possible(h, events, maxLiveTotal)
    requires c in h.held && Release(c) !in events && Die(c.managerPid) !in events
    ensures var after := Run(h, events);
            c in after.held && after.held[c] == h.held[c] && Owns(after.slots, h.held[c], c.managerPid, c.processId)
    decreases |events|
  {
    if events == [] {
      assert Owns(h.slots, h.held[c], c.managerPid, c.processId);
    } else {
      StepKeepsInv(h, events[0], maxLiveTotal);
      LiveManagerKeepsSlot(Step(h, events[0]), events[1..], maxLiveTotal, c);
    }
  }

  /** A crash does not free the slot of a child that runs on: nobody can claim it until it dies. */
  lemma {:induction false} OrphanKeepsSlot(h: Host, events: seq<Event>, maxLiveTotal: nat, index: nat)
    requires Inv(h, maxLiveTotal) && Possible(h, events, maxLiveTotal)
    requires index in h.slots && h.slots[index].Record? && h.slots[index].managerPid !in h.live
    requires h.slots[index].childPid.Some? && h.slots[index].childPid.value in h.live
    requires Die(h.slots[index].childPid.value) !in events
    ensures index in Run(h, events).slots && Run(h, events).slots[index] == h.slots[index]
    decreases |events|
  {
    if events == [] {
    } else {
      StepKeepsInv(h, events[0], maxLiveTotal);
      OrphanStep(h, events[0], maxLiveTotal, index);
      OrphanKeepsSlot(Step(h, events[0]), events[1..], maxLiveTotal, index);
    }
  }

  lemma OrphanStep(h: Host, e: Event, maxLiveTotal: nat, index: nat)
    requires Inv(h, maxLiveTotal) && Enabled(h, e, maxLiveTotal)
    requires index in h.slots && h.slots[index].Record? && h.slots[index].managerPid !in h.live
    requires h.slots[index].childPid.Some? && h.slots[index].childPid.value in h.live && e != Die(h.slots[index].childPid.value)
    ensures var after := Step(h, e);
            && index in after.slots && after.slots[index] == h.slots[index]
            && h.slots[index].managerPid !in after.live && h.slots[index].childPid.value in after.live
  {
  }

  // ----- one undisturbed claim is a run of these steps -----

  function FirstClaimable(slots: Slots, live: set<nat>, from: nat, maxLiveTotal: nat): (r: Option<nat>)
    ensures r.Some? ==> from <= r.value < maxLiveTotal && Claimable(slots, live, r.value)
    ensures forall i :: from <= i < (if r.Some? then r.value else maxLiveTotal) ==> !Claimable(slots, live, i)
    decreases maxLiveTotal - from
  {
    if from >= maxLiveTotal then None
    else if Claimable(slots, live, from) then Some(from)
    else FirstClaimable(slots, live, from + 1, maxLiveTotal)
  }

  /** The file operations of one claim that nothing interrupts. */
  function ClaimTrace(h: Host, c: Claim, index: nat, maxLiveTotal: nat): seq<Event>
    decreases maxLiveTotal - index
  {
    if index >= maxLiveTotal then []
    else if index !in h.slots then [TryCreate(c, index)]
    else if Stale(h.slots[index], h.live) then [TryCreate(c, index), TryReclaim(index), TryCreate(c, index)]
    else [TryCreate(c, index), TryReclaim(index)] + ClaimTrace(h, c, index + 1, maxLiveTotal)
  }

  /** Run step by step, a claim ends where the claim method says: the lowest claimable slot, or nothing changed. */
  lemma {:induction false} ClaimIsRunOfSteps(h: Host, c: Claim, index: nat, maxLiveTotal: nat)
    requires c.managerPid in h.managers && c !in h.held && index <= maxLiveTotal
    ensures Possible(h, ClaimTrace(h, c, index, maxLiveTotal), maxLiveTotal)
    ensures var first := FirstClaimable(h.slots, h.live, index, maxLiveTotal);
            Run(h, ClaimTrace(h, c, index, maxLiveTotal)) ==
            if first.None? then h
            else h.(slots := h.slots[first.value := Record(c.processId, c.managerPid, None)], held := h.held[c := first.value])
    decreases maxLiveTotal - index
  {
    if index >= maxLiveTotal {
    } else {
      var create, reclaim := TryCreate(c, index), TryReclaim(index);
      if index !in h.slots {
        OneStep(h, create, maxLiveTotal);
      } else if Stale(h.slots[index], h.live) {
        TakeStaleSlot(h, c, index, maxLiveTotal);
      } else {
        ClaimIsRunOfSteps(h, c, index + 1, maxLiveTotal);
        PassLiveSlot(h, c, index, ClaimTrace(h, c, index + 1, maxLiveTotal), maxLiveTotal);
      }
    }
  }

  lemma TakeStaleSlot(h: Host, c: Claim, index: nat, maxLiveTotal: nat)
    requires c.managerPid in h.managers && c !in h.held && index < maxLiveTotal && index in h.slots && Stale(h.slots[index], h.live)
    ensures var trace := [TryCreate(c, index), TryReclaim(index), TryCreate(c, index)];
            && Possible(h, trace, maxLiveTotal)
            && Run(h, trace) == h.(slots := h.slots[index := Record(c.processId, c.managerPid, None)], held := h.held[c := index])
  {
    var create, reclaim := TryCreate(c, index), TryReclaim(index);
    var freed := Step(h, reclaim);
    assert Step(h, create) == h;
    OneStep(freed, create, maxLiveTotal);
    Prepend(freed, reclaim, h, [create], maxLiveTotal);
    Prepend(h, create, h, [reclaim, create], maxLiveTotal);
    assert [reclaim] + [create] == [reclaim, create] && [create] + [reclaim, create] == [create, reclaim, create];
    assert freed.slots[index := Record(c.processId, c.managerPid, None)] == h.slots[index := Record(c.processId, c.managerPid, None)];
  }

  lemma PassLiveSlot(h: Host, c: Claim, index: nat, rest: seq<Event>, maxLiveTotal: nat)
    requires c.managerPid in h.managers && c !in h.held && index < maxLiveTotal && index in h.slots && !Stale(h.slots[index], h.live)
    ensures var trace := [TryCreate(c, index), TryReclaim(index)] + rest;
            Possible(h, trace, maxLiveTotal) == Possible(h, rest, maxLiveTotal) && Run(h, trace) == Run(h, rest)
  {
    var create, reclaim := TryCreate(c, index), TryReclaim(index);
    assert Step(h, create) == h && Step(h, reclaim) == h;
    Prepend(h, reclaim, h, rest, maxLiveTotal);
    Prepend(h, create, h, [reclaim] + rest, maxLiveTotal);
    assert [create] + ([reclaim] + rest) == [create, reclaim] + rest;
  }

  lemma OneStep(h: Host, e: Event, maxLiveTotal: nat)
    requires Enabled(h, e, maxLiveTotal)
    ensures Possible(h, [e], maxLiveTotal) && Run(h, [e]) == Step(h, e)
  {
    assert [e][1..] == [];
  }

  lemma Prepend(after: Host, e: Event, h: Host, rest: seq<Event>, maxLiveTotal: nat)
    requires Enabled(h, e, maxLiveTotal) && after == Step(h, e)
    ensures Possible(h, [e] + rest, maxLiveTotal) == Possible(after, rest, maxLiveTotal)
    ensures Run(h, [e] + rest) == Run(after, rest)
  {
    assert ([e] + rest)[1..] == rest;
  }

  // ----- a released slot is free -----

  /** Right after its release a held slot is in nobody's table and not in the directory, where
      nothing else has changed. */
  lemma ReleaseFreesSlot(h: Host, c: Claim, maxLiveTotal: nat)
    requires Inv(h, maxLiveTotal) && Enabled(h, Release(c), maxLiveTotal)
    ensures var after, index := Step(h, Release(c)), h.held[c];
            && index in h.slots && index !in after.slots && c !in after.held
            && (forall i :: i != index ==> (i in after.slots <==> i in h.slots) && (i in h.slots ==> after.slots[i] == h.slots[i]))
            && (forall d :: d != c ==> (d in after.held <==> d in h.held) && (d in h.held ==> after.held[d] == h.held[d] && h.held[d] != index))
  {
    assert Owns(h.slots, h.held[c], c.managerPid, c.processId);
    forall d | d in h.held && d != c ensures h.held[d] != h.held[c] {
      if h.held[d] == h.held[c] {
        OneHolderPerSlot(h, c, d);
      }
    }
  }

  /** Then any live manager that claims undisturbed is admitted, at that slot or a lower one. */
  lemma ReleasedSlotAdmits(h: Host, c: Claim, d: Claim, maxLiveTotal: nat)
    requires Inv(h, maxLiveTotal) && Enabled(h, Release(c), maxLiveTotal)
    requires d.managerPid in h.managers && (d == c || d !in h.held)
    ensures var freed := Step(h, Release(c));
            var after := Run(freed, ClaimTrace(freed, d, 0, maxLiveTotal));
            && Possible(freed, ClaimTrace(freed, d, 0, maxLiveTotal), maxLiveTotal)
            && d in after.held && after.held[d] <= h.held[c]
            && Owns(after.slots, after.held[d], d.managerPid, d.processId)
  {
    ReleaseFreesSlot(h, c, maxLiveTotal);
    var freed := Step(h, Release(c));
    assert h.held[c] < maxLiveTotal && Claimable(freed.slots, freed.live, h.held[c]);
    ClaimIsRunOfSteps(freed, d, 0, maxLiveTotal);
  }

  // ----- who lives, and whose slots can be taken -----

  predicate Starts(e: Event, pid: nat) {
    e == StartManager(pid) || e == SpawnChild(pid)
  }

  ghost predicate Started(events: seq<Event>, pid: nat) {
    exists i :: 0 <= i < |events| && Starts(events[i], pid)
  }

  lemma StartedFirstOrLater(events: seq<Event>, pid: nat)
    requires events != []
    ensures Started(events, pid) <==> Starts(events[0], pid) || Started(events[1..], pid)
  {
    if Started(events[1..], pid) {
      var i :| 0 <= i < |events| - 1 && Starts(events[1..][i], pid);
      assert Starts(events[i + 1], pid);
    }
    if Started(events, pid) && !Starts(events[0], pid) {
      var i :| 0 <= i < |events| && Starts(events[i], pid);
      assert Starts(events[1..][i - 1], pid);
    }
  }

  /** A pid that was given out is not given out again. */
  lemma {:induction false} UsedStartsNever(h: Host, events: seq<Event>, maxLiveTotal: nat, pid: nat)
    requires Possible(h, events, maxLiveTotal) && pid in h.used
    ensures !Started(events, pid)
    decreases |events|
  {
    if events == [] {
    } else {
      UsedStartsNever(Step(h, events[0]), events[1..], maxLiveTotal, pid);
      StartedFirstOrLater(events, pid);
    }
  }

  /** Over every run the live processes are those that were there or started, and did not die. */
  lemma {:induction false} LiveIff(h: Host, events: seq<Event>, maxLiveTotal: nat, pid: nat)
    requires Possible(h, events, maxLiveTotal) && h.live <= h.used
    ensures pid in Run(h, events).live <==> (pid in h.live || Started(events, pid)) && Die(pid) !in events
    decreases |events|
  {
    if events == [] {
    } else {
      var e, rest, after := events[0], events[1..], Step(h, events[0]);
      LiveIff(after, rest, maxLiveTotal, pid);
      StartedFirstOrLater(events, pid);
      assert Die(pid) in events <==> e == Die(pid) || Die(pid) in rest;
      if e == Die(pid) {
        UsedStartsNever(after, rest, maxLiveTotal, pid);
      }
    }
  }

  /** The managers are those that were there or started as one, and did not die. */
  lemma {:induction false} ManagerIff(h: Host, events: seq<Event>, maxLiveTotal: nat, pid: nat)
    requires Possible(h, events, maxLiveTotal) && h.managers <= h.used && h.live <= h.used
    ensures pid in Run(h, events).managers <==> (pid in h.managers || StartManager(pid) in events) && Die(pid) !in events
    decreases |events|
  {
    if events == [] {
    } else {
      var e, rest := events[0], events[1..];
      ManagerIff(Step(h, e), rest, maxLiveTotal, pid);
      assert events == [e] + rest;
      if e == Die(pid) {
        UsedStartsNever(h, events, maxLiveTotal, pid);
      }
    }
  }

  /** A slot whose manager and recorded child are both dead is up for taking: any live manager that
      claims undisturbed is admitted, there or lower. */
  lemma DeadSlotAdmits(h: Host, index: nat, d: Claim, maxLiveTotal: nat)
    requires Inv(h, maxLiveTotal) && index in h.slots && h.slots[index].Record?
    requires h.slots[index].managerPid !in h.live
    requires h.slots[index].childPid.Some? ==> h.slots[index].childPid.value !in h.live
    requires d.managerPid in h.managers && d !in h.held
    ensures var after := Run(h, ClaimTrace(h, d, 0, maxLiveTotal));
            && Possible(h, ClaimTrace(h, d, 0, maxLiveTotal), maxLiveTotal)
            && d in after.held && after.held[d] <= index && Owns(after.slots, after.held[d], d.managerPid, d.processId)
  {
    assert Claimable(h.slots, h.live, index);
    ClaimIsRunOfSteps(h, d, 0, maxLiveTotal);
  }

  /** The child on record for `c`. */
  predicate HeldByChild(h: Host, index: nat, c: Claim, childPid: nat) {
    Owns(h.slots, index, c.managerPid, c.processId) && h.slots[index].childPid == Some(childPid) && childPid in h.live
  }

  predicate Disturbs(e: Event, c: Claim, childPid: nat) {
    e == Release(c) || e == Die(childPid) || (e.RecordChild? && e.claim == c)
  }

  lemma ChildStays(h: Host, e: Event, maxLiveTotal: nat, index: nat, c: Claim, childPid: nat)
    requires Inv(h, maxLiveTotal) && Enabled(h, e, maxLiveTotal)
    requires HeldByChild(h, index, c, childPid) && !Disturbs(e, c, childPid)
    ensures HeldByChild(Step(h, e), index, c, childPid)
  {
  }

  lemma {:induction false} ChildStaysThrough(h: Host, events: seq<Event>, maxLiveTotal: nat, index: nat, c: Claim, childPid: nat)
    requires Inv(h, maxLiveTotal) && Possible(h, events, maxLiveTotal) && HeldByChild(h, index, c, childPid)
    requires forall i :: 0 <= i < |events| ==> !Disturbs(events[i], c, childPid)
    ensures HeldByChild(Run(h, events), index, c, childPid)
    decreases |events|
  {
    if events == [] {
    } else {
      StepKeepsInv(h, events[0], maxLiveTotal);
      ChildStays(h, events[0], maxLiveTotal, index, c, childPid);
      ChildStaysThrough(Step(h, events[0]), events[1..], maxLiveTotal, index, c, childPid);
    }
  }

  /** Once its live child is on record, a slot outlives its manager: whatever happens, it stays claimed
      until the child dies, the owner releases it, or another child is recorded. */
  lemma RecordedChildKeepsSlot(h: Host, events: seq<Event>, maxLiveTotal: nat, c: Claim, childPid: nat)
    requires Inv(h, maxLiveTotal) && Enabled(h, RecordChild(c, childPid), maxLiveTotal) && childPid in h.live
    requires Possible(Step(h, RecordChild(c, childPid)), events, maxLiveTotal)
    requires forall i :: 0 <= i < |events| ==> !Disturbs(events[i], c, childPid)
    ensures var after := Run(Step(h, RecordChild(c, childPid)), events);
            && Owns(after.slots, h.held[c], c.managerPid, c.processId)
            && after.slots[h.held[c]].childPid == Some(childPid)
  {
    assert Owns(h.slots, h.held[c], c.managerPid, c.processId);
    StepKeepsInv(h, RecordChild(c, childPid), maxLiveTotal);
    ChildStaysThrough(Step(h, RecordChild(c, childPid)), events, maxLiveTotal, h.held[c], c, childPid);
  }
}
