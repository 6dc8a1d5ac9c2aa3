/** The worker's step loop, with the two ways a run is cut short: a step ended by a signal, and
    a kill noticed between steps. */
module CommandWorker {
  import opened Basics
  import opened CommandWords
  import opened CommandSequence
  import opened AndOrLists

  /** What the loop does from `s` onwards. */
  function Work(parts: seq<Part>, s: State, w: World): State {
    if parts == [] then s
    else if s.status.Some? && w.killed(s.ran) then s.(status := Some(-1))
    else if !ShouldRun(parts[0].runIf, s.status) then Work(parts[1..], s, w)
    else
      var after := RunOne(s, parts[0].command, w);
      if w.signalled(s.ran, parts[0].command) then after else Work(parts[1..], after, w)
  }

  method ExecuteSteps(parts: seq<Part>, w: World) returns (ran: seq<string>, code: int)
    ensures var end := Work(parts, IDLE, w);
            ran == end.ran && code == if end.status.Some? then end.status.value else 0
  {
    ran := [];
    var previousCode: Option<int> := None;
    var index := 0;
    while index < |parts|
      invariant 0 <= index <= |parts|
      invariant Work(parts[index..], State(ran, previousCode), w) == Work(parts, IDLE, w)
    {
      if previousCode.Some? && w.killed(ran) {
        return ran, -1;
      }
      var step := parts[index];
      assert parts[index..][1..] == parts[index + 1..];
      index := index + 1;
      if !ShouldRun(step.runIf, previousCode) {
        continue;
      }
      var signalled := w.signalled(ran, step.command);
      var result := w.code(ran, step.command);
      ran := ran + [step.command];
      previousCode := Some(result);
      if signalled {
        break;
      }
    }
    code := if previousCode.Some? then previousCode.value else 0;
  }

  ghost predicate Undisturbed(w: World) {
    && (forall h, c :: !w.signalled(h, c))
    && (forall h :: !w.killed(h))
  }

  lemma {:induction false} UndisturbedRunsAll(parts: seq<Part>, s: State, w: World)
    requires Undisturbed(w)
    ensures Work(parts, s, w) == RunAll(parts, s, w)
  {
    if parts == [] {
    } else {
      var after := if ShouldRun(parts[0].runIf, s.status) then RunOne(s, parts[0].command, w) else s;
      UndisturbedRunsAll(parts[1..], after, w);
    }
  }

  lemma {:induction false} RunAllExtends(parts: seq<Part>, s: State, w: World)
    ensures s.ran <= RunAll(parts, s, w).ran
  {
    if parts == [] {
    } else {
      var after := if ShouldRun(parts[0].runIf, s.status) then RunOne(s, parts[0].command, w) else s;
      RunAllExtends(parts[1..], after, w);
    }
  }

  /** Signals and kills only cut a run short: whatever ran is an initial part of the full run. */
  lemma {:induction false} InterruptionOnlyCutsShort(parts: seq<Part>, s: State, w: World)
    ensures s.ran <= Work(parts, s, w).ran <= RunAll(parts, s, w).ran
  {
    RunAllExtends(parts, s, w);
    if parts != [] && !(s.status.Some? && w.killed(s.ran)) {
      var runs := ShouldRun(parts[0].runIf, s.status);
      var after := if runs then RunOne(s, parts[0].command, w) else s;
      RunAllExtends(parts[1..], after, w);
      if !runs || !w.signalled(s.ran, parts[0].command) {
        InterruptionOnlyCutsShort(parts[1..], after, w);
      }
    }
  }

  lemma RunOneRuns(s: State, command: string, w: World)
    ensures RunOne(s, command, w) == State(s.ran + [command], Some(w.code(s.ran, command)))
  {
  }

  /** What a run reports. It is the whole run's status; or, cut short by a signal, that of the command
      the signal ended; or failure, and then a kill was noticed behind the last command. */
  lemma {:induction false} StatusTellsEnd(parts: seq<Part>, s: State, w: World)
    ensures var end := Work(parts, s, w);
            || end == RunAll(parts, s, w)
            || (|end.ran| > |s.ran|
                && var n := |end.ran| - 1;
                   w.signalled(end.ran[..n], end.ran[n]) && end.status == Some(w.code(end.ran[..n], end.ran[n])))
            || (w.killed(end.ran) && end.status == Some(-1))
    decreases |parts|
  {
    if parts == [] {
    } else if !(s.status.Some? && w.killed(s.ran)) {
      if ShouldRun(parts[0].runIf, s.status) {
        var after := RunOne(s, parts[0].command, w);
        RunOneRuns(s, parts[0].command, w);
        assert after.ran[..|s.ran|] == s.ran;
        if !w.signalled(s.ran, parts[0].command) {
          StatusTellsEnd(parts[1..], after, w);
          InterruptionOnlyCutsShort(parts[1..], after, w);
        }
      } else {
        StatusTellsEnd(parts[1..], s, w);
      }
    }
  }

  /** Nothing runs behind a signal or a kill: no command but the last was ended by a signal, and no
      kill was there to be noticed before another command ran. */
  lemma {:induction false} InterruptionStops(parts: seq<Part>, s: State, w: World, n: nat)
    requires |s.ran| < n < |Work(parts, s, w).ran|
    ensures var ran := Work(parts, s, w).ran;
            !w.killed(ran[..n]) && !w.signalled(ran[..n - 1], ran[n - 1])
    decreases |parts|
  {
    if parts == [] {
    } else if !(s.status.Some? && w.killed(s.ran)) {
      if ShouldRun(parts[0].runIf, s.status) {
        var after := RunOne(s, parts[0].command, w);
        RunOneRuns(s, parts[0].command, w);
        if !w.signalled(s.ran, parts[0].command) {
          InterruptionOnlyCutsShort(parts[1..], after, w);
          var ran := Work(parts[1..], after, w).ran;
          assert ran[..|s.ran| + 1] == after.ran && ran[..|s.ran|] == s.ran;
          if n > |s.ran| + 1 {
            InterruptionStops(parts[1..], after, w, n);
          } else {
            KilledStops(parts[1..], after, w);
          }
        }
      } else {
        InterruptionStops(parts[1..], s, w, n);
      }
    }
  }

  /** A kill before any of the parts runs stops them all, with failure. */
  lemma KilledStops(parts: seq<Part>, s: State, w: World)
    ensures s.status.Some? && w.killed(s.ran) ==>
              Work(parts, s, w).ran == s.ran && (parts != [] ==> Work(parts, s, w).status == Some(-1))
  {
  }

  /** From text to effect: undisturbed, the worker runs an accepted text without a dangling
      operator as the AND-OR list it is, and reports the list's status. */
  lemma WorkerMeansAndOrList(command: string, w: World)
    requires SplitSequence(command).Some? && Undisturbed(w)
    requires !Dangling(Tokens("", Bare, false, command).value, false)
    ensures var toks := Tokens("", Bare, false, command).value;
            && ParseList(toks, false).Some?
            && Work(SplitSequence(command).value, IDLE, w) == EvalList(ParseList(toks, false).value, IDLE, w)
  {
    UndisturbedRunsAll(SplitSequence(command).value, IDLE, w);
    CompilationPreservesMeaning(command, w);
  }
}
