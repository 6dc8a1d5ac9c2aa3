/** Structural paging of a snapshot: pages end early, or at the end of a protected field, rather
    than cut through one that would fit. */
module SnapshotPaging {
  import opened Basics
  import opened SnapshotJson
  import opened SnapshotPayload

  const SNAPSHOT_PAGE_MAX_CHARS := 30_000

  /** What was asked for, if a page may be that long. */
  function PageLimit(requested: int): (limit: nat)
    ensures 1 <= limit <= SNAPSHOT_PAGE_MAX_CHARS
    ensures limit == if requested < 1 then 1 else if requested > SNAPSHOT_PAGE_MAX_CHARS then SNAPSHOT_PAGE_MAX_CHARS else requested
  {
    Max(1, Min(requested, SNAPSHOT_PAGE_MAX_CHARS))
  }

  /** The first range from `i` on that has a say in where a page from `start` ends. */
  function EndByRanges(ranges: seq<Range>, i: nat, start: nat, nominalEnd: nat, pageLimit: nat): nat
    requires i <= |ranges|
    decreases |ranges| - i
  {
    if i == |ranges| then nominalEnd
    else
      var r := ranges[i];
      if r.end <= start || r.start >= nominalEnd then EndByRanges(ranges, i + 1, start, nominalEnd, pageLimit)
      else if start < r.start && nominalEnd > r.start && nominalEnd < r.end then
        if r.end - start <= pageLimit then r.end else r.start
      else if start >= r.start && start < r.end && r.end - start <= pageLimit then r.end
      else EndByRanges(ranges, i + 1, start, nominalEnd, pageLimit)
  }

  function PageEnd(length: nat, ranges: seq<Range>, start: nat, pageLimit: nat): nat {
    if start + pageLimit >= length then length else EndByRanges(ranges, 0, start, start + pageLimit, pageLimit)
  }

  method StructuralPageEnd(length: nat, ranges: seq<Range>, start: nat, pageLimit: nat) returns (end: nat)
    ensures end == PageEnd(length, ranges, start, pageLimit)
  {
    var nominalEnd := Min(length, start + pageLimit);
    if nominalEnd >= length {
      return length;
    }
    for i := 0 to |ranges|
      invariant EndByRanges(ranges, 0, start, nominalEnd, pageLimit) == EndByRanges(ranges, i, start, nominalEnd, pageLimit)
    {
      var range := ranges[i];
      if range.end <= start || range.start >= nominalEnd {
        continue;
      }
      if start < range.start && nominalEnd > range.start && nominalEnd < range.end {
        if range.end - start <= pageLimit {
          return range.end;
        }
        return range.start;
      }
      if start >= range.start && start < range.end && range.end - start <= pageLimit {
        return range.end;
      }
    }
    return nominalEnd;
  }

  lemma {:induction false} EndByRangesAdvances(ranges: seq<Range>, i: nat, start: nat, nominalEnd: nat, pageLimit: nat, length: nat)
    requires Ordered(ranges, length) && i <= |ranges| && start < nominalEnd <= start + pageLimit && nominalEnd <= length
    ensures start < EndByRanges(ranges, i, start, nominalEnd, pageLimit) <= start + pageLimit
    ensures EndByRanges(ranges, i, start, nominalEnd, pageLimit) <= length
    decreases |ranges| - i
  {
    if i >= |ranges| {
    } else {
      EndByRangesAdvances(ranges, i + 1, start, nominalEnd, pageLimit, length);
    }
  }

  /** Every page is within its limit, and not empty while text remains. */
  lemma PageAdvances(ranges: seq<Range>, start: nat, pageLimit: nat, length: nat)
    requires Ordered(ranges, length) && start <= length && pageLimit >= 1
    ensures var end := PageEnd(length, ranges, start, pageLimit);
            start <= end <= length && end - start <= pageLimit && (start < length ==> start < end)
  {
    if start + pageLimit < length {
      EndByRangesAdvances(ranges, 0, start, start + pageLimit, pageLimit, length);
    }
  }

  /** The page from `start` begins in the field, and what is left of the field fits. */
  predicate Finishes(r: Range, start: nat, pageLimit: nat) {
    r.start <= start < r.end <= start + pageLimit
  }

  /** A full page from `start` would end inside a field that begins on it. */
  predicate Splits(r: Range, start: nat, pageLimit: nat) {
    start < r.start < start + pageLimit < r.end
  }

  lemma {:induction false} EndByRangesExactly(ranges: seq<Range>, i: nat, start: nat, pageLimit: nat, length: nat)
    requires Ordered(ranges, length) && i <= |ranges| && pageLimit >= 1
    ensures var end := EndByRanges(ranges, i, start, start + pageLimit, pageLimit);
            && (forall k :: i <= k < |ranges| && Finishes(ranges[k], start, pageLimit) ==> end == ranges[k].end)
            && (forall k :: i <= k < |ranges| && Splits(ranges[k], start, pageLimit) ==>
                  end == ranges[k].start || exists j :: i <= j < |ranges| && Finishes(ranges[j], start, pageLimit))
            && (end == start + pageLimit
                || exists k :: i <= k < |ranges| && (Finishes(ranges[k], start, pageLimit) || Splits(ranges[k], start, pageLimit)))
    decreases |ranges| - i
  {
    if i >= |ranges| {
    } else {
      EndByRangesExactly(ranges, i + 1, start, pageLimit, length);
      assert forall k :: i < k < |ranges| ==> ranges[i].end <= ranges[k].start;
      assert forall k :: i < k < |ranges| ==> ranges[k].start < ranges[k].end;
    }
  }

  /** A page ends with the text, if the limit reaches that far; else at the end of a protected field
      that it begins in and that fits; else before one that a full page would split; else it is full. */
  lemma PageEndsExactly(ranges: seq<Range>, start: nat, pageLimit: nat, length: nat)
    requires Ordered(ranges, length) && pageLimit >= 1
    ensures var end := PageEnd(length, ranges, start, pageLimit);
            if start + pageLimit >= length then end == length
            else if exists k :: 0 <= k < |ranges| && Finishes(ranges[k], start, pageLimit) then
              forall k :: 0 <= k < |ranges| && Finishes(ranges[k], start, pageLimit) ==> end == ranges[k].end
            else if exists k :: 0 <= k < |ranges| && Splits(ranges[k], start, pageLimit) then
              forall k :: 0 <= k < |ranges| && Splits(ranges[k], start, pageLimit) ==> end == ranges[k].start
            else end == start + pageLimit
  {
    EndByRangesExactly(ranges, 0, start, pageLimit, length);
  }

  predicate Inside(offset: nat, r: Range) {
    r.start < offset < r.end
  }

  /** From the ranges before `r` on, no answer lies inside `r`. */
  lemma {:induction false} EndSkipsRange(ranges: seq<Range>, i: nat, k: nat, start: nat, nominalEnd: nat, pageLimit: nat, length: nat)
    requires Ordered(ranges, length) && i <= k < |ranges| && nominalEnd == start + pageLimit <= length
    requires !Inside(start, ranges[k]) && ranges[k].end - ranges[k].start <= pageLimit
    ensures !Inside(EndByRanges(ranges, i, start, nominalEnd, pageLimit), ranges[k])
    decreases k - i
  {
    var r := ranges[i];
    if i < k {
      assert r.end <= ranges[k].start;
      EndSkipsRange(ranges, i + 1, k, start, nominalEnd, pageLimit, length);
    } else {
      EndAfterRange(ranges, k + 1, start, nominalEnd, pageLimit, length, r);
    }
  }

  /** Past `r`, the answer is the nominal end or lies in a range that begins after `r`. */
  lemma {:induction false} EndAfterRange(ranges: seq<Range>, i: nat, start: nat, nominalEnd: nat, pageLimit: nat, length: nat, r: Range)
    requires Ordered(ranges, length) && i <= |ranges| && forall j :: i <= j < |ranges| ==> r.end <= ranges[j].start
    ensures var end := EndByRanges(ranges, i, start, nominalEnd, pageLimit); end == nominalEnd || r.end <= end
    decreases |ranges| - i
  {
    if i >= |ranges| {
    } else {
      EndAfterRange(ranges, i + 1, start, nominalEnd, pageLimit, length, r);
    }
  }

  /** A page that does not begin inside a protected field no longer than the limit does not end inside it. */
  lemma PageKeepsField(ranges: seq<Range>, k: nat, start: nat, pageLimit: nat, length: nat)
    requires Ordered(ranges, length) && k < |ranges| && start <= length
    requires !Inside(start, ranges[k]) && ranges[k].end - ranges[k].start <= pageLimit
    ensures !Inside(PageEnd(length, ranges, start, pageLimit), ranges[k])
  {
    if start + pageLimit < length {
      EndSkipsRange(ranges, 0, k, start, start + pageLimit, pageLimit, length);
    }
  }

  // ----- a whole session -----

  /** The offsets between pages when the limits are asked for in turn. */
  function Offset(length: nat, ranges: seq<Range>, requests: seq<int>): nat {
    if requests == [] then 0
    else PageEnd(length, ranges, Offset(length, ranges, requests[..|requests| - 1]), PageLimit(requests[|requests| - 1]))
  }

  /** The text of all pages together. */
  function Told(stdout: string, ranges: seq<Range>, requests: seq<int>): string
    requires Ordered(ranges, |stdout|)
  {
    if requests == [] then ""
    else
      var before := requests[..|requests| - 1];
      OffsetsAdvance(ranges, requests, |stdout|);
      Told(stdout, ranges, before) + stdout[Offset(|stdout|, ranges, before)..Offset(|stdout|, ranges, requests)]
  }

  lemma {:induction false} OffsetsAdvance(ranges: seq<Range>, requests: seq<int>, length: nat)
    requires Ordered(ranges, length)
    ensures Offset(length, ranges, requests) <= length
    ensures requests != [] ==>
              var before := Offset(length, ranges, requests[..|requests| - 1]);
              before <= Offset(length, ranges, requests) && (before < length ==> before < Offset(length, ranges, requests))
    ensures Offset(length, ranges, requests) >= Min(|requests|, length)
  {
    if requests == [] {
    } else {
      var before := requests[..|requests| - 1];
      OffsetsAdvance(ranges, before, length);
      PageAdvances(ranges, Offset(length, ranges, before), PageLimit(requests[|requests| - 1]), length);
    }
  }

  /** Whatever the limits: the pages in a row are the text up to the offset, and as many requests as
      there are characters are enough for all of it. */
  lemma {:induction false} PagesTellAll(stdout: string, ranges: seq<Range>, requests: seq<int>)
    requires Ordered(ranges, |stdout|)
    ensures Offset(|stdout|, ranges, requests) <= |stdout|
    ensures Told(stdout, ranges, requests) == stdout[..Offset(|stdout|, ranges, requests)]
    ensures |requests| >= |stdout| ==> Told(stdout, ranges, requests) == stdout
  {
    OffsetsAdvance(ranges, requests, |stdout|);
    if requests == [] {
    } else {
      PagesTellAll(stdout, ranges, requests[..|requests| - 1]);
    }
  }

  /** A protected field no longer than any limit asked for is never split: no page ends inside it. */
  lemma {:induction false} ProtectedFieldStaysWhole(ranges: seq<Range>, k: nat, requests: seq<int>, length: nat)
    requires Ordered(ranges, length) && k < |ranges|
    requires forall i :: 0 <= i < |requests| ==> ranges[k].end - ranges[k].start <= PageLimit(requests[i])
    ensures !Inside(Offset(length, ranges, requests), ranges[k])
  {
    if requests == [] {
    } else {
      var before := requests[..|requests| - 1];
      OffsetsAdvance(ranges, before, length);
      ProtectedFieldStaysWhole(ranges, k, before, length);
      PageKeepsField(ranges, k, Offset(length, ranges, before), PageLimit(requests[|requests| - 1]), length);
    }
  }

  lemma OrderedInLonger(ranges: seq<Range>, length: nat, longer: nat)
    requires Ordered(ranges, length) && length <= longer
    ensures Ordered(ranges, longer)
  {
  }

  /** From the payload on: every protected field of a snapshot that is no longer than any limit
      reaches the reader in one piece. `texts` are the payload's field texts, `length` counts them
      and the braces around them. */
  lemma SnapshotFieldsStayWhole(members: seq<Member>, texts: seq<string>, k: nat, requests: seq<int>, length: nat)
    requires length == 2 + |Joined(texts, |texts|)| + 1
    requires k < |members| == |texts| && Protected(members[k].key) && forall i :: 0 <= i < |texts| ==> texts[i] != ""
    requires forall i :: 0 <= i < |requests| ==> |texts[k]| <= PageLimit(requests[i])
    ensures var ranges := ProtectedRanges(members, texts, |members|);
            Ordered(ranges, length) && !Inside(Offset(length, ranges, requests), Extent(texts, k, members[k].key))
  {
    var ranges := ProtectedRanges(members, texts, |members|);
    var r := Extent(texts, k, members[k].key);
    ProtectedRangesAreOrdered(members, texts, |members|);
    OrderedInLonger(ranges, 2 + |Joined(texts, |members|)|, length);
    assert r in ranges by {
      assert IsProtectedField(members, texts, r, k);
      ProtectedRangesAreFields(members, texts, |members|, r);
    }
    var i :| 0 <= i < |ranges| && ranges[i] == r;
    assert r.end - r.start == |texts[k]|;
    ProtectedFieldStaysWhole(ranges, i, requests, length);
  }

  // ----- the sessions of all readers -----

  const SNAPSHOT_PAGE_SESSION_TTL_MS := 1_800_000
  const SNAPSHOT_PAGE_MAX_SESSIONS := 128

  datatype Session = Session(stdout: string, protectedRanges: seq<Range>, offset: nat, lastAccessMs: int)

  datatype Page = Page(text: string, start: nat, end: nat, more: bool)

  class SnapshotPager {
    var sessions: map<string, Session>

    /** A session never offers a next page that would be empty. */
    ghost predicate Valid()
      reads this
    {
      forall key :: key in sessions ==>
        var s := sessions[key]; s.offset < |s.stdout| && Ordered(s.protectedRanges, |s.stdout|)
    }

    constructor ()
      ensures Valid() && sessions == map[]
    {
      sessions := map[];
    }

    /** The next page of the session, which goes on exactly while text remains. */
    method PageSnapshot(session: Session, key: string, requestedChars: int, now: int) returns (page: Page)
      requires Valid() && session.offset < |session.stdout| && Ordered(session.protectedRanges, |session.stdout|)
      modifies this
      ensures Valid()
      ensures var end := PageEnd(|session.stdout|, session.protectedRanges, session.offset, PageLimit(requestedChars));
              && session.offset < end <= |session.stdout| && end - session.offset <= PageLimit(requestedChars)
              && page == Page(session.stdout[session.offset..end], session.offset, end, end < |session.stdout|)
      ensures sessions == if page.more then old(sessions)[key := session.(offset := page.end, lastAccessMs := now)]
                          else old(sessions) - {key}
    {
      var pageLimit := Max(1, Min(requestedChars, SNAPSHOT_PAGE_MAX_CHARS));
      var start := session.offset;
      PageAdvances(session.protectedRanges, start, pageLimit, |session.stdout|);
      var end := StructuralPageEnd(|session.stdout|, session.protectedRanges, start, pageLimit);
      var more := end < |session.stdout|;
      if more {
        sessions := sessions[key := session.(offset := end, lastAccessMs := now)];
      } else {
        sessions := sessions - {key};
      }
      page := Page(session.stdout[start..end], start, end, more);
    }

    /** Drops sessions unused for too long and then, if too many are left, the least recently used:
        afterwards one more fits, and no kept session is older than one dropped to make room. */
    method Prune(now: int)
      requires Valid()
      modifies this
      ensures Valid() && |sessions| < SNAPSHOT_PAGE_MAX_SESSIONS
      ensures OldestDropped(Recent(old(sessions), now), sessions)
      ensures |sessions| == Min(|Recent(old(sessions), now)|, SNAPSHOT_PAGE_MAX_SESSIONS - 1)
      ensures forall key :: key in sessions ==> now - sessions[key].lastAccessMs <= SNAPSHOT_PAGE_SESSION_TTL_MS
      ensures forall key :: key in old(sessions) && key !in sessions && now - old(sessions)[key].lastAccessMs <= SNAPSHOT_PAGE_SESSION_TTL_MS ==>
                |sessions| == SNAPSHOT_PAGE_MAX_SESSIONS - 1
    {
      sessions := Recent(sessions, now);
      ghost var recent := sessions;
      while |sessions| >= SNAPSHOT_PAGE_MAX_SESSIONS
        invariant Valid() && OldestDropped(recent, sessions)
        invariant sessions == recent || SNAPSHOT_PAGE_MAX_SESSIONS - 1 <= |sessions| < |recent|
        decreases |sessions|
      {
        var oldest := Oldest(sessions);
        DropOldest(recent, sessions, oldest);
        OneFewer(sessions, oldest);
        sessions := sessions - {oldest};
      }
    }
  }

  /** The sessions used recently enough. */
  function Recent(sessions: map<string, Session>, now: int): map<string, Session> {
    map key | key in sessions && now - sessions[key].lastAccessMs <= SNAPSHOT_PAGE_SESSION_TTL_MS :: sessions[key]
  }

  /** What is left is unchanged, and used no earlier than anything dropped. */
  ghost predicate OldestDropped(before: map<string, Session>, left: map<string, Session>) {
    && left.Keys <= before.Keys && (forall key :: key in left ==> left[key] == before[key])
    && (forall key, kept :: key in before && key !in left && kept in left ==> before[key].lastAccessMs <= left[kept].lastAccessMs)
  }

  lemma OneFewer(sessions: map<string, Session>, key: string)
    requires key in sessions
    ensures |sessions - {key}| == |sessions| - 1
  {
    assert (sessions - {key}).Keys == sessions.Keys - {key};
    assert |(sessions - {key}).Keys| == |sessions.Keys| - 1;
  }

  lemma DropOldest(before: map<string, Session>, left: map<string, Session>, oldest: string)
    requires OldestDropped(before, left) && oldest in left
    requires forall key :: key in left ==> left[oldest].lastAccessMs <= left[key].lastAccessMs
    ensures OldestDropped(before, left - {oldest})
  {
  }

  method Oldest(sessions: map<string, Session>) returns (oldest: string)
    requires sessions != map[]
    ensures oldest in sessions && forall key :: key in sessions ==> sessions[oldest].lastAccessMs <= sessions[key].lastAccessMs
  {
    var todo := sessions.Keys;
    oldest :| oldest in todo;
    while todo != {}
      invariant todo <= sessions.Keys && oldest in sessions
      invariant forall key :: key in sessions && key !in todo ==> sessions[oldest].lastAccessMs <= sessions[key].lastAccessMs
      decreases |todo|
    {
      var key :| key in todo;
      if sessions[key].lastAccessMs < sessions[oldest].lastAccessMs {
        oldest := key;
      }
      todo := todo - {key};
    }
  }
}
