/** The lock file around a shared store: any number of calls, in any number of processes, that
    acquire, load, store and release in steps, while processes crash and waiting calls reclaim
    locks: those of the dead, as the TypeScript writers do, or any that has grown old, as the Python
    writer does. `E` is what a call does to the store's content `S`. */
module StoreLock {
  import opened Basics

  /** A call of the locked operation in a process; a pid is never used twice. */
  datatype Caller = Caller(pid: nat, call: nat)

  datatype Phase<S, E> = Entered(update: E) | Loaded(update: E, content: S) | Written

  datatype World<S, E> = World(
    lock: Option<Caller>,            // the lock file; its text is the pid
    file: S,                         // the store file
    alive: set<nat>, used: set<nat>,
    inside: map<Caller, Phase<S, E>>,  // the calls between acquiring and releasing
    turn: nat,                       // acquisitions so far
    turns: map<Caller, nat>,         // the turn of each call that is inside
    log: seq<(nat, E)>)              // what was stored, with the turn it was stored in

  datatype Step<E> =
    | Start(pid: nat)
    | Acquire(c: Caller, update: E)
    | Reclaim          // of a dead holder's lock
    | ReclaimAged      // of a lock old enough, whoever holds it
    | Load(c: Caller)
    | Store(c: Caller)
    | Release(c: Caller)
    | Crash(pid: nat)

  /** A live call acts in order; acquiring needs the lock file to be absent, reclaiming needs its
      holder to be dead or, for the Python writer, only the file to be there long enough. */
  predicate Enabled<S, E>(w: World<S, E>, s: Step<E>) {
    match s
    case Start(pid) => pid !in w.used
    case Acquire(c, _) => c.pid in w.alive && c !in w.inside && w.lock.None?
    case Reclaim => w.lock.Some? && w.lock.value.pid !in w.alive
    case ReclaimAged => w.lock.Some?
    case Load(c) => c in w.inside && w.inside[c].Entered?
    case Store(c) => c in w.inside && w.inside[c].Loaded?
    case Release(c) => c in w.inside
    case Crash(pid) => pid in w.alive
  }

  function AfterCrash<V>(m: map<Caller, V>, pid: nat): map<Caller, V> {
    map c | c in m && c.pid != pid :: m[c]
  }

  function Next<S, E>(w: World<S, E>, s: Step<E>, apply: (S, E) -> S): World<S, E>
    requires Enabled(w, s)
  {
    match s
    case Start(pid) => w.(alive := w.alive + {pid}, used := w.used + {pid})
    case Acquire(c, update) =>
      w.(lock := Some(c), inside := w.inside[c := Entered(update)], turns := w.turns[c := w.turn], turn := w.turn + 1)
    case Reclaim => w.(lock := None)
    case ReclaimAged => w.(lock := None)
    case Load(c) => w.(inside := w.inside[c := Loaded(w.inside[c].update, w.file)])
    case Store(c) =>
      var update := w.inside[c].update;
      w.(file := apply(w.inside[c].content, update), inside := w.inside[c := Written],
         log := w.log + [(if c in w.turns then w.turns[c] else 0, update)])
    case Release(c) => w.(lock := None, inside := w.inside - {c}, turns := w.turns - {c})
    case Crash(pid) => w.(alive := w.alive - {pid}, inside := AfterCrash(w.inside, pid), turns := AfterCrash(w.turns, pid))
  }

  function Apply<S, E>(start: S, log: seq<(nat, E)>, apply: (S, E) -> S): S {
    if log == [] then start else apply(Apply(start, log[..|log| - 1], apply), log[|log| - 1].1)
  }

  /** Turns rise along the log: what is stored is stored in the order in which the lock was taken. */
  ghost predicate InLockOrder<E>(log: seq<(nat, E)>) {
    forall i, j :: 0 <= i < j < |log| ==> log[i].0 < log[j].0
  }

  /** Only the call whose pid the lock file names is inside, and what it loaded is still what is stored. */
  ghost predicate Inv<S, E>(w: World<S, E>, start: S, apply: (S, E) -> S) {
    && (forall c :: c in w.inside ==> w.lock == Some(c) && c.pid in w.alive)
    && (forall c :: c in w.inside && w.inside[c].Loaded? ==> w.inside[c].content == w.file)
    && w.turns.Keys == w.inside.Keys && (forall c :: c in w.turns ==> w.turns[c] < w.turn)
    && (forall c, i :: c in w.inside && !w.inside[c].Written? && 0 <= i < |w.log| ==> w.log[i].0 < w.turns[c])
    && (forall i :: 0 <= i < |w.log| ==> w.log[i].0 < w.turn)
    && w.alive <= w.used
    && w.file == Apply(start, w.log, apply) && InLockOrder(w.log)
  }

  lemma StoreAppends<S, E>(start: S, log: seq<(nat, E)>, turn: nat, update: E, apply: (S, E) -> S)
    requires InLockOrder(log) && forall i :: 0 <= i < |log| ==> log[i].0 < turn
    ensures Apply(start, log + [(turn, update)], apply) == apply(Apply(start, log, apply), update)
    ensures InLockOrder(log + [(turn, update)])
  {
    var more := log + [(turn, update)];
    assert more[..|log|] == log;
    assert forall i :: 0 <= i < |log| ==> more[i] == log[i];
  }

  /** The step takes no lock from a call that is still inside. */
  predicate Misses<S, E>(w: World<S, E>, s: Step<E>) {
    s.ReclaimAged? && w.lock.Some? ==> w.lock.value !in w.inside
  }

  /** Everything but an age reclaim that hits a call inside keeps the lock sound. */
  lemma NextKeepsInv<S, E>(w: World<S, E>, s: Step<E>, start: S, apply: (S, E) -> S)
    requires Inv(w, start, apply) && Enabled(w, s) && Misses(w, s)
    ensures Inv(Next(w, s, apply), start, apply)
  {
    if s.Store? {
      StoreAppends(start, w.log, w.turns[s.c], w.inside[s.c].update, apply);
    }
  }

  ghost predicate Possible<S, E>(w: World<S, E>, steps: seq<Step<E>>, apply: (S, E) -> S)
    decreases |steps|
  {
    steps == [] || (Enabled(w, steps[0]) && Possible(Next(w, steps[0], apply), steps[1..], apply))
  }

  function Run<S, E>(w: World<S, E>, steps: seq<Step<E>>, apply: (S, E) -> S): World<S, E>
    requires Possible(w, steps, apply)
    decreases |steps|
  {
    if steps == [] then w else Run(Next(w, steps[0], apply), steps[1..], apply)
  }

  /** No age reclaim of the run takes a lock from a call that is still inside. */
  ghost predicate AllMiss<S, E>(w: World<S, E>, steps: seq<Step<E>>, apply: (S, E) -> S)
    requires Possible(w, steps, apply)
    decreases |steps|
  {
    steps == [] || (Misses(w, steps[0]) && AllMiss(Next(w, steps[0], apply), steps[1..], apply))
  }

  /** Writers that reclaim only from the dead need no more. */
  lemma {:induction false} PidReclaimsMiss<S, E>(w: World<S, E>, steps: seq<Step<E>>, apply: (S, E) -> S)
    requires Possible(w, steps, apply) && ReclaimAged !in steps
    ensures AllMiss(w, steps, apply)
    decreases |steps|
  {
    if steps == [] {
    } else {
      assert steps[0] in steps;
      PidReclaimsMiss(Next(w, steps[0], apply), steps[1..], apply);
    }
  }

  lemma {:induction false} RunKeepsInv<S, E>(w: World<S, E>, steps: seq<Step<E>>, start: S, apply: (S, E) -> S)
    requires Inv(w, start, apply) && Possible(w, steps, apply) && AllMiss(w, steps, apply)
    ensures Inv(Run(w, steps, apply), start, apply)
    decreases |steps|
  {
    if steps == [] {
    } else {
      NextKeepsInv(w, steps[0], start, apply);
      RunKeepsInv(Next(w, steps[0], apply), steps[1..], start, apply);
    }
  }

  function Fresh<S, E>(start: S): World<S, E> {
    World(None, start, {}, {}, map[], 0, map[], [])
  }

  /** At most one call is inside, and the store is the stored updates applied in lock order. */
  ghost predicate Serial<S, E>(w: World<S, E>, start: S, apply: (S, E) -> S) {
    && (forall c, d :: c in w.inside && d in w.inside ==> c == d)
    && w.file == Apply(start, w.log, apply) && InLockOrder(w.log)
  }

  lemma InvIsSerial<S, E>(w: World<S, E>, start: S, apply: (S, E) -> S)
    requires Inv(w, start, apply)
    ensures Serial(w, start, apply)
  {
  }

  /** However calls step, crash and reclaim: as long as no lock is taken from a call inside, there
      are never two of them inside at once. */
  lemma AtMostOneInside<S, E>(steps: seq<Step<E>>, start: S, apply: (S, E) -> S, c: Caller, d: Caller)
    requires Possible(Fresh(start), steps, apply) && AllMiss(Fresh(start), steps, apply)
    requires c in Run(Fresh(start), steps, apply).inside && d in Run(Fresh(start), steps, apply).inside
    ensures c == d
  {
    RunKeepsInv(Fresh(start), steps, start, apply);
  }

  /** And no update is lost: the store holds what the stored updates make of the first content, one
      after the other in the order in which the lock was taken. */
  lemma StoreIsItsLog<S, E>(steps: seq<Step<E>>, start: S, apply: (S, E) -> S)
    requires Possible(Fresh(start), steps, apply) && AllMiss(Fresh(start), steps, apply)
    ensures var w := Run(Fresh(start), steps, apply);
            w.file == Apply(start, w.log, apply) && InLockOrder(w.log)
  {
    RunKeepsInv(Fresh(start), steps, start, apply);
  }

  // ----- exactly when reclaiming by age is safe -----

  /** Whatever happens from `w` on without another lock taken from a call inside, the lock does its work. */
  ghost predicate Safe<S(!new), E(!new)>(w: World<S, E>, start: S, apply: (S, E) -> S) {
    forall steps :: Possible(w, steps, apply) && AllMiss(w, steps, apply) ==> Serial(Run(w, steps, apply), start, apply)
  }

  lemma InvIsSafe<S(!new), E(!new)>(w: World<S, E>, start: S, apply: (S, E) -> S)
    requires Inv(w, start, apply)
    ensures Safe(w, start, apply)
  {
    forall steps | Possible(w, steps, apply) && AllMiss(w, steps, apply) ensures Serial(Run(w, steps, apply), start, apply) {
      RunKeepsInv(w, steps, start, apply);
      InvIsSerial(Run(w, steps, apply), start, apply);
    }
  }

  /** A lock taken from a call inside lets any other call of a live process in beside it. */
  lemma HitLetsSecondIn<S, E>(w: World<S, E>, c: Caller, d: Caller, update: E, apply: (S, E) -> S)
    requires w.lock == Some(c) && c in w.inside && d.pid in w.alive && d !in w.inside
    ensures var after := Next(w, ReclaimAged, apply);
            Enabled(after, Acquire(d, update)) && {c, d} <= Next(after, Acquire(d, update), apply).inside.Keys
  {
  }

  lemma OneStep<S, E>(w: World<S, E>, s: Step<E>, apply: (S, E) -> S)
    requires Enabled(w, s)
    ensures Possible(w, [s], apply) && Run(w, [s], apply) == Next(w, s, apply)
    ensures Misses(w, s) ==> AllMiss(w, [s], apply)
  {
    assert [s][1..] == [];
  }

  /** An age reclaim is safe if and only if the holder is no longer inside: then everything stays
      serial whatever follows, and otherwise one more acquisition puts two calls inside. */
  lemma AgeReclaimIsSafeIff<S(!new), E(!new)>(w: World<S, E>, start: S, apply: (S, E) -> S, update: E)
    requires Inv(w, start, apply) && w.lock.Some?
    ensures Safe(Next(w, ReclaimAged, apply), start, apply) <==> w.lock.value !in w.inside
    ensures Inv(Next(w, ReclaimAged, apply), start, apply) <==> w.lock.value !in w.inside
  {
    var c := w.lock.value;
    var after := Next(w, ReclaimAged, apply);
    if c !in w.inside {
      NextKeepsInv(w, ReclaimAged, start, apply);
      InvIsSafe(after, start, apply);
    } else {
      var d := Caller(c.pid, c.call + 1);
      HitLetsSecondIn(w, c, d, update, apply);
      OneStep(after, Acquire(d, update), apply);
      assert !Serial(Run(after, [Acquire(d, update)], apply), start, apply);
    }
  }

  /** The lock is safe at every state the run passes. */
  ghost predicate SafeThroughout<S(!new), E(!new)>(w: World<S, E>, steps: seq<Step<E>>, start: S, apply: (S, E) -> S)
    requires Possible(w, steps, apply)
    decreases |steps|
  {
    Safe(w, start, apply) && (steps != [] ==> SafeThroughout(Next(w, steps[0], apply), steps[1..], start, apply))
  }

  lemma {:induction false} SafeIffAllMissFrom<S(!new), E(!new)>(w: World<S, E>, steps: seq<Step<E>>, start: S, apply: (S, E) -> S, update: E)
    requires Inv(w, start, apply) && Possible(w, steps, apply)
    ensures SafeThroughout(w, steps, start, apply) <==> AllMiss(w, steps, apply)
    decreases |steps|
  {
    InvIsSafe(w, start, apply);
    if steps == [] {
    } else if Misses(w, steps[0]) {
      NextKeepsInv(w, steps[0], start, apply);
      SafeIffAllMissFrom(Next(w, steps[0], apply), steps[1..], start, apply, update);
    } else {
      AgeReclaimIsSafeIff(w, start, apply, update);
      assert !SafeThroughout(Next(w, steps[0], apply), steps[1..], start, apply);
    }
  }

  /** Over every run: the lock is safe all along if and only if no age reclaim takes it from a call
      that is still inside. `update` is any update there is. */
  lemma SafeIffNoHolderIsHit<S(!new), E(!new)>(steps: seq<Step<E>>, start: S, apply: (S, E) -> S, update: E)
    requires Possible(Fresh(start), steps, apply)
    ensures SafeThroughout(Fresh(start), steps, start, apply) <==> AllMiss(Fresh(start), steps, apply)
  {
    SafeIffAllMissFrom(Fresh(start), steps, start, apply, update);
  }

  /** What a hit costs: the call that was robbed has loaded, another one loads and stores, and the
      first store that follows forgets it. */
  lemma HitForgetsUpdate<S, E>(w: World<S, E>, start: S, apply: (S, E) -> S, c: Caller, d: Caller, update: E)
    requires Inv(w, start, apply) && w.lock == Some(c) && c in w.inside && w.inside[c].Loaded?
    requires d.pid in w.alive && d != c
    ensures var steps := [ReclaimAged, Acquire(d, update), Load(d), Store(d), Store(c)];
            && Possible(w, steps, apply)
            && var end, mine := Run(w, steps, apply), w.inside[c].update;
               && |end.log| == |w.log| + 2 && end.file == apply(w.file, mine)
               && Apply(start, end.log, apply) == apply(apply(w.file, update), mine)
  {
    var mine := w.inside[c].update;
    assert d !in w.inside;
    var w1 := Next(w, ReclaimAged, apply);
    var w2 := Next(w1, Acquire(d, update), apply);
    var w3 := Next(w2, Load(d), apply);
    var w4 := Next(w3, Store(d), apply);
    var w5 := Next(w4, Store(c), apply);
    assert w4.log == w.log + [(w.turn, update)] && w5.log == w4.log + [(w.turns[c], mine)];
    LastApplies(start, w.log, w.turn, update, apply);
    LastApplies(start, w4.log, w.turns[c], mine, apply);
    OneStep(w4, Store(c), apply);
    Then(w3, Store(d), [Store(c)], apply);
    Then(w2, Load(d), [Store(d), Store(c)], apply);
    Then(w1, Acquire(d, update), [Load(d), Store(d), Store(c)], apply);
    Then(w, ReclaimAged, [Acquire(d, update), Load(d), Store(d), Store(c)], apply);
  }

  lemma LastApplies<S, E>(start: S, log: seq<(nat, E)>, turn: nat, update: E, apply: (S, E) -> S)
    ensures Apply(start, log + [(turn, update)], apply) == apply(Apply(start, log, apply), update)
  {
    assert (log + [(turn, update)])[..|log|] == log;
  }

  lemma Then<S, E>(w: World<S, E>, s: Step<E>, rest: seq<Step<E>>, apply: (S, E) -> S)
    requires Enabled(w, s) && Possible(Next(w, s, apply), rest, apply)
    ensures Possible(w, [s] + rest, apply) && Run(w, [s] + rest, apply) == Run(Next(w, s, apply), rest, apply)
  {
    assert ([s] + rest)[1..] == rest;
  }

  /** Such a run from the very start: two processes each add one, the second having taken an aged
      lock from the first, and the store ends at one although two updates were stored. */
  lemma AgeReclaimLosesUpdate()
    ensures var add := (s: int, e: int) => s + e;
            var a, b := Caller(1, 0), Caller(2, 0);
            var steps := [Start(1), Start(2), Acquire(a, 1), Load(a)] + [ReclaimAged, Acquire(b, 1), Load(b), Store(b), Store(a)];
            && Possible(Fresh(0), steps, add)
            && var end := Run(Fresh(0), steps, add);
               |end.log| == 2 && end.file == 1 && Apply(0, end.log, add) == 2
  {
    var add := (s: int, e: int) => s + e;
    var a, b := Caller(1, 0), Caller(2, 0);
    var w0: World<int, int> := Fresh(0);
    var w1 := Next(w0, Start(1), add);
    var w2 := Next(w1, Start(2), add);
    var w3 := Next(w2, Acquire(a, 1), add);
    var w4 := Next(w3, Load(a), add);
    NextKeepsInv(w0, Start(1), 0, add);
    NextKeepsInv(w1, Start(2), 0, add);
    NextKeepsInv(w2, Acquire(a, 1), 0, add);
    NextKeepsInv(w3, Load(a), 0, add);
    HitForgetsUpdate(w4, 0, add, a, b, 1);
    var hit: seq<Step<int>> := [ReclaimAged, Acquire(b, 1), Load(b), Store(b), Store(a)];
    Then(w3, Load(a), hit, add);
    Then(w2, Acquire(a, 1), [Load(a)] + hit, add);
    Then(w1, Start(2), [Acquire(a, 1)] + ([Load(a)] + hit), add);
    Then(w0, Start(1), [Start(2)] + ([Acquire(a, 1)] + ([Load(a)] + hit)), add);
    assert [Start(1), Start(2), Acquire(a, 1), Load(a)] + hit == [Start(1)] + ([Start(2)] + ([Acquire(a, 1)] + ([Load(a)] + hit)));
  }

  // ----- one call, and the lock free again -----

  /** A call that nothing disturbs applies its update once to what is stored, and leaves the lock to
      the next one. */
  lemma UndisturbedCall<S, E>(w: World<S, E>, c: Caller, update: E, apply: (S, E) -> S)
    requires w.lock.None? && c.pid in w.alive && c !in w.inside
    ensures var steps := [Acquire(c, update), Load(c), Store(c), Release(c)];
            && Possible(w, steps, apply)
            && var end := Run(w, steps, apply);
               && end.file == apply(w.file, update) && end.log == w.log + [(w.turn, update)]
               && end.lock.None? && c !in end.inside && w.turn < end.turn && end.alive == w.alive
               && forall d :: d != c ==> (d in end.inside <==> d in w.inside) && (d in w.inside ==> end.inside[d] == w.inside[d])
  {
    var w1 := Next(w, Acquire(c, update), apply);
    var w2 := Next(w1, Load(c), apply);
    var w3 := Next(w2, Store(c), apply);
    OneStep(w3, Release(c), apply);
    Then(w2, Store(c), [Release(c)], apply);
    Then(w1, Load(c), [Store(c), Release(c)], apply);
    Then(w, Acquire(c, update), [Load(c), Store(c), Release(c)], apply);
  }

  /** A crashed holder locks nobody out: any other call of a live process can take its lock and go in. */
  lemma DeadHolderLetsIn<S, E>(w: World<S, E>, start: S, c: Caller, d: Caller, update: E, apply: (S, E) -> S)
    requires Inv(w, start, apply) && w.lock == Some(c) && c.pid in w.alive && d.pid in w.alive && d.pid != c.pid
    ensures var steps := [Crash(c.pid), Reclaim, Acquire(d, update)];
            && Possible(w, steps, apply)
            && Run(w, steps, apply).inside.Keys == {d} && Run(w, steps, apply).lock == Some(d) && Run(w, steps, apply).file == w.file
  {
    var w1 := Next(w, Crash(c.pid), apply);
    var w2 := Next(w1, Reclaim, apply);
    assert w1.inside.Keys == {} && d.pid in w1.alive && d !in w2.inside;
    OneStep(w2, Acquire(d, update), apply);
    Then(w1, Reclaim, [Acquire(d, update)], apply);
    Then(w, Crash(c.pid), [Reclaim, Acquire(d, update)], apply);
  }

  function Stores<E>(steps: seq<Step<E>>): nat {
    if steps == [] then 0 else (if steps[0].Store? then 1 else 0) + Stores(steps[1..])
  }

  /** Over every run, hit or not: each store is logged once, and nothing else is. */
  lemma {:induction false} StoresAreLogged<S, E>(w: World<S, E>, steps: seq<Step<E>>, apply: (S, E) -> S)
    requires Possible(w, steps, apply)
    ensures w.log <= Run(w, steps, apply).log && |Run(w, steps, apply).log| == |w.log| + Stores(steps)
    decreases |steps|
  {
    if steps == [] {
    } else {
      StoresAreLogged(Next(w, steps[0], apply), steps[1..], apply);
    }
  }
}
