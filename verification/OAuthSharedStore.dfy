/** Server processes that share the OAuth store behind its pid lock: their concurrent steps amount
    to one run of whole operations, so everything proved of RefreshRuns holds of them. What the
    lock guards is the store file together with the retry caches, which a process touches only
    inside it; an update is one operation and the time that passed before it. */
module OAuthSharedStore {
  import R = RefreshRuns
  import L = StoreLock

  /** The operations of the log in one row. */
  function EventsOf(log: seq<(nat, seq<R.Event>)>): seq<R.Event> {
    if log == [] then [] else EventsOf(log[..|log| - 1]) + log[|log| - 1].1
  }

  lemma {:induction false} RunAppends(w: R.World, a: seq<R.Event>, b: seq<R.Event>)
    ensures R.Run(w, a + b) == R.Run(R.Run(w, a), b)
    decreases |b|
  {
    if b == [] {
      assert a + b == a;
    } else {
      var n := |b| - 1;
      assert (a + b)[..|a| + n] == a + b[..n] && (a + b)[|a| + n] == b[n];
      RunAppends(w, a, b[..n]);
    }
  }

  lemma {:induction false} LogIsRun(start: R.World, log: seq<(nat, seq<R.Event>)>)
    ensures L.Apply(start, log, (w, es) => R.Run(w, es)) == R.Run(start, EventsOf(log))
  {
    if log == [] {
    } else {
      var n := |log| - 1;
      LogIsRun(start, log[..n]);
      RunAppends(start, EventsOf(log[..n]), log[n].1);
    }
  }

  /** With any number of calls in any number of processes stepping, crashing and reclaiming dead
      holders' locks, the store is what one run of the stored operations, in lock order, makes of
      the first content. */
  lemma ConcurrentServersSerialise(steps: seq<L.Step<seq<R.Event>>>, confidential: set<string>)
    requires L.Possible(L.Fresh(R.Init(confidential)), steps, (w, es) => R.Run(w, es)) && L.ReclaimAged !in steps
    ensures var w := L.Run(L.Fresh(R.Init(confidential)), steps, (w, es) => R.Run(w, es));
            w.file == R.Run(R.Init(confidential), EventsOf(w.log)) && R.Inv(w.file)
  {
    var apply := (w: R.World, es: seq<R.Event>) => R.Run(w, es);
    var start := R.Init(confidential);
    L.PidReclaimsMiss(L.Fresh(start), steps, apply);
    L.StoreIsItsLog(steps, start, apply);
    var w := L.Run(L.Fresh(start), steps, apply);
    LogIsRun(start, w.log);
    R.RunInv(confidential, EventsOf(w.log));
  }
}
