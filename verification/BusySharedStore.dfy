/** Any number of BUSY writers behind the lock file: their concurrent steps amount to one run of
    whole operations, so everything proved about interleaved operations holds of them. */
module BusySharedStore {
  import opened BusyOperations
  import W = BusyWriters
  import L = StoreLock

  function EventsOf(log: seq<(nat, W.Event)>): seq<W.Event> {
    seq(|log|, i requires 0 <= i < |log| => log[i].1)
  }

  lemma {:induction false} LogIsRun(start: State, log: seq<(nat, W.Event)>, rules: Rules)
    ensures L.Apply(start, log, (s, e) => W.Step(s, e, rules)) == W.Run(start, EventsOf(log), rules)
  {
    if log == [] {
    } else {
      var n := |log| - 1;
      LogIsRun(start, log[..n], rules);
      assert EventsOf(log)[..n] == EventsOf(log[..n]);
    }
  }

  /** With any number of writers of both kinds stepping, crashing and reclaiming, the store holds the
      result of running the stored operations whole, one after the other in lock order, on the first
      content, as long as the Python writers' reclaiming by age takes no lock from a writer that is
      still inside. */
  lemma ConcurrentWritersSerialise(steps: seq<L.Step<W.Event>>, start: State, rules: Rules)
    requires L.Possible(L.Fresh(start), steps, (s, e) => W.Step(s, e, rules))
    requires L.AllMiss(L.Fresh(start), steps, (s, e) => W.Step(s, e, rules))
    ensures var w := L.Run(L.Fresh(start), steps, (s, e) => W.Step(s, e, rules));
            w.file == W.Run(start, EventsOf(w.log), rules) && (Good(start) ==> Good(w.file))
  {
    var apply := (s, e) => W.Step(s, e, rules);
    L.StoreIsItsLog(steps, start, apply);
    var w := L.Run(L.Fresh(start), steps, apply);
    LogIsRun(start, w.log, rules);
    if Good(start) {
      W.RunKeepsGood(start, EventsOf(w.log), rules);
    }
  }

  /** And no weaker condition would do: the lock is safe all along exactly under that one. */
  lemma SharedStoreIsSafeIff(steps: seq<L.Step<W.Event>>, start: State, rules: Rules)
    requires L.Possible(L.Fresh(start), steps, (s, e) => W.Step(s, e, rules))
    ensures L.SafeThroughout(L.Fresh(start), steps, start, (s, e) => W.Step(s, e, rules)) <==>
            L.AllMiss(L.Fresh(start), steps, (s, e) => W.Step(s, e, rules))
  {
    L.SafeIffNoHolderIsHit(steps, start, (s, e) => W.Step(s, e, rules), W.Python(Look, 0, 0));
  }
}
