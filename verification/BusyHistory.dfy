/** The operations the coordinator remembers, so that a repeated one takes effect once. */
module BusyHistory {
  import opened Basics
  import opened BusyRecords

  const MAX_OPERATIONS := 512

  datatype Signature =
    | RecoverSignature(owner: string, scope: string, timestamp: int)
    | ActSignature(command: Command, scope: string, actor: string, leaseSeconds: Option<int>, checkpoint: Option<string>)

  datatype Command = Claim | Heartbeat | Release

  datatype Answer =
    | Claimed(scope: string, holder: Holder)
    | Released(scope: string, holder: Holder, checkpoint: Option<string>)
    | Recovered(scope: string, holder: Holder, checkpoint: Option<string>)
    | AmbiguousScope(scope: string)
    | AlreadyClaimed(scope: string, holder: Holder)
    | NotClaimed
    | OtherActor(scope: string, holder: Holder)
    | ClaimChanged(scope: string, holder: Holder)
    | IdempotencyConflict(id: string)
    | Report

  datatype Operation = Operation(id: string, at: int, signature: Signature, answer: Answer)

  type Operations = seq<Operation>

  ghost predicate Distinct(ops: Operations) {
    forall i, j :: 0 <= i < |ops| && 0 <= j < |ops| && ops[i].id == ops[j].id ==> i == j
  }

  /** Where the record of `id` is, or the length. */
  function Find(ops: Operations, id: string): (n: nat)
    ensures n <= |ops| && (n < |ops| ==> ops[n].id == id)
    ensures forall i :: 0 <= i < n ==> ops[i].id != id
  {
    if ops == [] || ops[0].id == id then 0 else 1 + Find(ops[1..], id)
  }

  /** The first of the oldest records. */
  function Oldest(ops: Operations): (n: nat)
    requires ops != []
    ensures n < |ops|
    ensures forall i :: 0 <= i < |ops| ==> ops[n].at <= ops[i].at
    ensures forall i :: 0 <= i < n ==> ops[n].at < ops[i].at
  {
    if |ops| == 1 then 0
    else
      var n := 1 + Oldest(ops[1..]);
      if ops[0].at <= ops[n].at then 0 else n
  }

  function Without(ops: Operations, n: nat): (r: Operations)
    requires n < |ops|
    ensures |r| == |ops| - 1
  {
    ops[..n] + ops[n + 1..]
  }

  /** The stable sort by time: the oldest first, and of equally old ones the earlier first. */
  function ByAge(ops: Operations): (r: Operations)
    ensures |r| == |ops|
    decreases |ops|
  {
    if ops == [] then [] else [ops[Oldest(ops)]] + ByAge(Without(ops, Oldest(ops)))
  }

  /** What is left once only the limit's worth of newest records is kept. */
  function Pruned(ops: Operations): (r: Operations)
    ensures |r| == Min(|ops|, MAX_OPERATIONS)
    decreases |ops|
  {
    if |ops| <= MAX_OPERATIONS then ops else Pruned(Without(ops, Oldest(ops)))
  }

  lemma WithoutCounts(ops: Operations, n: nat)
    requires n < |ops|
    ensures multiset(ops) == multiset(Without(ops, n)) + multiset{ops[n]}
  {
    assert ops == ops[..n] + [ops[n]] + ops[n + 1..];
  }

  lemma WithoutHolds(ops: Operations, n: nat, o: Operation)
    requires n < |ops|
    ensures o in ops <==> o == ops[n] || o in Without(ops, n)
  {
    WithoutCounts(ops, n);
    assert o in ops <==> o in multiset(ops);
    assert o in Without(ops, n) <==> o in multiset(Without(ops, n));
  }

  lemma NoneOlder(o: Operation, all: Operations, sorted: Operations)
    requires multiset(sorted) == multiset(all) && forall i :: 0 <= i < |all| ==> o.at <= all[i].at
    ensures forall k :: 0 <= k < |sorted| ==> o.at <= sorted[k].at
  {
    forall k | 0 <= k < |sorted| ensures o.at <= sorted[k].at {
      assert sorted[k] in multiset(sorted);
      assert sorted[k] in all;
    }
  }

  /** Sorted by time, nothing added and nothing missing. */
  lemma {:induction false} ByAgeIsSorted(ops: Operations)
    ensures multiset(ByAge(ops)) == multiset(ops)
    ensures forall i, j :: 0 <= i < j < |ops| ==> ByAge(ops)[i].at <= ByAge(ops)[j].at
    decreases |ops|
  {
    if ops == [] {
    } else {
      var n := Oldest(ops);
      var rest := Without(ops, n);
      var tail := ByAge(rest);
      ByAgeIsSorted(rest);
      WithoutCounts(ops, n);
      NoneOlder(ops[n], rest, tail);
      OldestFirst(ops[n], tail);
      assert ByAge(ops) == [ops[n]] + tail;
    }
  }

  lemma OldestFirst(o: Operation, tail: Operations)
    requires forall k :: 0 <= k < |tail| ==> o.at <= tail[k].at
    requires forall i, j :: 0 <= i < j < |tail| ==> tail[i].at <= tail[j].at
    ensures forall i, j :: 0 <= i < j < |tail| + 1 ==> ([o] + tail)[i].at <= ([o] + tail)[j].at
  {
    var all := [o] + tail;
    forall i, j | 0 <= i < j < |all| ensures all[i].at <= all[j].at {
      assert all[j] == tail[j - 1];
      assert i > 0 ==> all[i] == tail[i - 1];
    }
  }

  function Remembered(ops: Operations, o: Operation): Operations {
    Pruned(ops + [o])
  }

  lemma WithoutKeepsDistinct(ops: Operations, n: nat)
    requires Distinct(ops) && n < |ops|
    ensures Distinct(Without(ops, n))
  {
  }

  /** The recorded operations with the limit's worth of them at most, oldest dropped. */
  method PruneOperations(ops: Operations) returns (r: Operations)
    requires Distinct(ops)
    ensures r == Pruned(ops)
  {
    if |ops| <= MAX_OPERATIONS {
      return ops;
    }
    var ordered := ByAge(ops);
    var excess := |ops| - MAX_OPERATIONS;
    r := ops;
    for i := 0 to excess
      invariant Distinct(r) && |r| == |ops| - i
      invariant ByAge(r) == ordered[i..] && Pruned(r) == Pruned(ops)
    {
      var n := Find(r, ordered[i].id);
      FindOldest(r, ordered[i..]);
      WithoutKeepsDistinct(r, n);
      r := Without(r, n);
    }
  }

  lemma FindOldest(ops: Operations, ordered: Operations)
    requires Distinct(ops) && ops != [] && ordered == ByAge(ops)
    ensures Find(ops, ordered[0].id) == Oldest(ops)
    ensures ByAge(Without(ops, Oldest(ops))) == ordered[1..]
  {
  }

  /** Pruning drops nothing newer than anything it keeps, and invents nothing. */
  lemma {:induction false} PruningKeepsNewest(ops: Operations, o: Operation, kept: Operation)
    requires kept in Pruned(ops)
    ensures kept in ops
    ensures o in ops && o !in Pruned(ops) ==> o.at <= kept.at
    decreases |ops|
  {
    if |ops| <= MAX_OPERATIONS {
    } else {
      var n := Oldest(ops);
      PruningKeepsNewest(Without(ops, n), o, kept);
      WithoutHolds(ops, n, o);
      WithoutHolds(ops, n, kept);
    }
  }

  /** A record as new as any survives at the end of the table: pruning never drops what was just remembered. */
  lemma {:induction false} NewestSurvives(ops: Operations)
    requires ops != [] && forall i :: 0 <= i < |ops| ==> ops[i].at <= ops[|ops| - 1].at
    ensures Pruned(ops) != [] && Pruned(ops)[|Pruned(ops)| - 1] == ops[|ops| - 1]
    decreases |ops|
  {
    if |ops| <= MAX_OPERATIONS {
    } else {
      var rest := Without(ops, Oldest(ops));
      assert rest[|rest| - 1] == ops[|ops| - 1];
      NewestSurvives(rest);
    }
  }

  lemma {:induction false} PruningKeepsDistinct(ops: Operations)
    requires Distinct(ops)
    ensures Distinct(Pruned(ops))
    decreases |ops|
  {
    if |ops| <= MAX_OPERATIONS {
    } else {
      WithoutKeepsDistinct(ops, Oldest(ops));
      PruningKeepsDistinct(Without(ops, Oldest(ops)));
    }
  }

  // ----- with a clock that does not go back -----

  ghost predicate InTimeOrder(ops: Operations) {
    forall i, j :: 0 <= i < j < |ops| ==> ops[i].at <= ops[j].at
  }

  /** The last records, as many as the table may hold. */
  function Newest(ops: Operations): Operations {
    if |ops| <= MAX_OPERATIONS then ops else ops[|ops| - MAX_OPERATIONS..]
  }

  lemma OldestIsFirst(ops: Operations)
    requires ops != [] && InTimeOrder(ops)
    ensures Oldest(ops) == 0 && Without(ops, 0) == ops[1..] && InTimeOrder(ops[1..])
  {
    assert ops[..0] == [];
  }

  lemma OrderedSuffix(ops: Operations)
    requires InTimeOrder(ops)
    ensures InTimeOrder(Newest(ops))
  {
  }

  lemma NewestOfTail(ops: Operations)
    requires |ops| > MAX_OPERATIONS
    ensures Newest(ops[1..]) == Newest(ops)
  {
  }

  /** Records in time order are pruned from the front. */
  lemma {:induction false} PrunedIsNewest(ops: Operations)
    requires InTimeOrder(ops)
    ensures Pruned(ops) == Newest(ops) && InTimeOrder(Newest(ops))
    decreases |ops|
  {
    OrderedSuffix(ops);
    if |ops| <= MAX_OPERATIONS {
    } else {
      OldestIsFirst(ops);
      PrunedIsNewest(ops[1..]);
      NewestOfTail(ops);
    }
  }

  /** Keeping the newest, adding, and keeping the newest again is keeping the newest of all. */
  lemma NewestOfMore(ops: Operations, more: Operations, o: Operation)
    ensures Newest(Newest(ops + more) + [o]) == Newest(ops + (more + [o]))
  {
    assert ops + (more + [o]) == (ops + more) + [o];
    var all := ops + more;
    if |all| > MAX_OPERATIONS {
      assert Newest(all) + [o] == (all + [o])[|all| - MAX_OPERATIONS..];
    }
  }

  ghost predicate Unrepeated(ops: Operations, k: nat)
    requires k < |ops|
  {
    forall i :: 0 <= i < |ops| && ops[i] == ops[k] ==> i == k
  }

  /** A record stays among the newest as long as it and those behind it are within the limit. */
  lemma NewestHoldsIff(ops: Operations, k: nat)
    requires k < |ops| && Unrepeated(ops, k)
    ensures ops[k] in Newest(ops) <==> |ops| - k <= MAX_OPERATIONS
  {
    var kept := Newest(ops);
    var cut := |ops| - |kept|;
    assert kept == ops[cut..];
    if k >= cut {
      assert kept[k - cut] == ops[k];
    } else {
      forall i | 0 <= i < |kept| ensures kept[i] != ops[k] {
        assert kept[i] == ops[cut + i];
      }
    }
  }
}
