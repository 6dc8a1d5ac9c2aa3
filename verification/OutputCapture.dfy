/** The bounded in-memory tail of one output stream. */
module OutputCapture {
  import opened Basics

  const MAX_CAPTURE_CHARS := 256_000
  const MAX_READ_CHARS := 256_000

  /** The last `n` characters of `s`, or all of it. */
  function LastN(s: string, n: nat): string {
    if |s| <= n then s else s[|s| - n..]
  }

  function Join(chunks: seq<string>): string {
    if chunks == [] then "" else chunks[0] + Join(chunks[1..])
  }

  /** The chunks joined from the last to the first. */
  function JoinReversed(parts: seq<string>): string {
    if parts == [] then "" else JoinReversed(parts[1..]) + parts[0]
  }

  lemma {:induction false} JoinPush(chunks: seq<string>, c: string)
    ensures Join(chunks + [c]) == Join(chunks) + c
  {
    if chunks == [] {
      assert [c][1..] == [] && [] + [c] == [c];
    } else {
      assert (chunks + [c])[1..] == chunks[1..] + [c];
      JoinPush(chunks[1..], c);
    }
  }

  lemma {:induction false} JoinReversedPush(parts: seq<string>, p: string)
    ensures JoinReversed(parts + [p]) == p + JoinReversed(parts)
  {
    if parts == [] {
      assert [p][1..] == [] && [] + [p] == [p];
    } else {
      assert (parts + [p])[1..] == parts[1..] + [p];
      JoinReversedPush(parts[1..], p);
    }
  }

  lemma JoinLast(chunks: seq<string>, i: nat)
    requires 0 < i <= |chunks|
    ensures Join(chunks[..i]) == Join(chunks[..i - 1]) + chunks[i - 1]
  {
    assert chunks[..i] == chunks[..i - 1] + [chunks[i - 1]];
    JoinPush(chunks[..i - 1], chunks[i - 1]);
  }

  predicate Suffix(small: string, whole: string) {
    |small| <= |whole| && small == whole[|whole| - |small|..]
  }

  lemma LastNOfAppend(before: string, text: string, n: nat)
    ensures LastN(LastN(before, n) + text, n) == LastN(before + text, n)
  {
    if |before| > n {
      var k := LastN(before, n);
      assert before == before[..|before| - n] + k;
      assert before + text == before[..|before| - n] + (k + text);
    }
  }

  lemma LastNOfLong(before: string, text: string, n: nat)
    requires |text| >= n
    ensures LastN(before + text, n) == text[|text| - n..]
  {
  }

  predicate NoneEmpty(chunks: seq<string>) {
    forall i :: 0 <= i < |chunks| ==> chunks[i] != ""
  }

  /** While the oldest chunks are being cut: the rest is an end of the whole, still long enough. */
  ghost predicate Trimming(chunks: seq<string>, length: nat, whole: string) {
    && NoneEmpty(chunks)
    && length == |Join(chunks)| && length >= Min(MAX_CAPTURE_CHARS, |whole|)
    && Suffix(Join(chunks), whole)
  }

  lemma Overfull(chunks: seq<string>, length: nat, whole: string)
    requires Trimming(chunks, length, whole) && length > 0
    ensures chunks != [] && 0 < |chunks[0]| <= length
  {
  }

  lemma DropOldest(chunks: seq<string>, length: nat, whole: string)
    requires Trimming(chunks, length, whole) && length > MAX_CAPTURE_CHARS
    requires chunks != [] && |chunks[0]| <= length - MAX_CAPTURE_CHARS
    ensures Trimming(chunks[1..], length - |chunks[0]|, whole)
  {
    assert |Join(chunks)| == |chunks[0]| + |Join(chunks[1..])|;
  }

  lemma CutOldest(chunks: seq<string>, length: nat, whole: string)
    requires Trimming(chunks, length, whole) && length > MAX_CAPTURE_CHARS
    requires chunks != [] && |chunks[0]| > length - MAX_CAPTURE_CHARS
    ensures Trimming([chunks[0][length - MAX_CAPTURE_CHARS..]] + chunks[1..], MAX_CAPTURE_CHARS, whole)
  {
    CutFirst(chunks, whole, length - MAX_CAPTURE_CHARS);
  }

  lemma Trimmed(chunks: seq<string>, length: nat, whole: string)
    requires Trimming(chunks, length, whole) && length <= MAX_CAPTURE_CHARS
    ensures Join(chunks) == LastN(whole, MAX_CAPTURE_CHARS)
  {
  }

  lemma CutFirst(chunks: seq<string>, whole: string, n: nat)
    requires chunks != [] && n <= |chunks[0]| && Suffix(Join(chunks), whole)
    ensures |Join([chunks[0][n..]] + chunks[1..])| == |Join(chunks)| - n
    ensures Suffix(Join([chunks[0][n..]] + chunks[1..]), whole)
  {
    var cut := [chunks[0][n..]] + chunks[1..];
    assert cut[1..] == chunks[1..];
    assert Join(cut) == chunks[0][n..] + Join(chunks[1..]);
    assert Join(chunks)[n..] == chunks[0][n..] + Join(chunks[1..]);
  }

  lemma AppendLarge(before: string, text: string)
    requires |text| >= MAX_CAPTURE_CHARS
    ensures var kept := text[|text| - MAX_CAPTURE_CHARS..];
            NoneEmpty([kept]) && Join([kept]) == kept == LastN(before + text, MAX_CAPTURE_CHARS)
  {
    var kept := text[|text| - MAX_CAPTURE_CHARS..];
    assert [kept][1..] == [] && kept + "" == kept;
    LastNOfLong(before, text, MAX_CAPTURE_CHARS);
  }

  lemma AppendSmall(chunks: seq<string>, before: string, text: string)
    requires NoneEmpty(chunks) && Join(chunks) == LastN(before, MAX_CAPTURE_CHARS) && text != ""
    ensures NoneEmpty(chunks + [text]) && Join(chunks + [text]) == Join(chunks) + text
    ensures LastN(Join(chunks + [text]), MAX_CAPTURE_CHARS) == LastN(before + text, MAX_CAPTURE_CHARS)
  {
    JoinPush(chunks, text);
    LastNOfAppend(before, text, MAX_CAPTURE_CHARS);
  }

  /** While the tail is collected from the newest chunk back: the parts are the end of the
      capture, and complete up to `index` as long as something may still be taken. */
  ghost predicate Collecting(chunks: seq<string>, index: nat, parts: seq<string>, remaining: nat, allowance: nat) {
    && index <= |chunks|
    && |JoinReversed(parts)| + remaining == allowance
    && JoinReversed(parts) == LastN(Join(chunks), allowance - remaining)
    && (remaining > 0 ==> Join(chunks) == Join(chunks[..index]) + JoinReversed(parts))
  }

  function PartOf(chunk: string, remaining: nat): string {
    if |chunk| <= remaining then chunk else chunk[|chunk| - remaining..]
  }

  lemma CollectStep(chunks: seq<string>, index: nat, parts: seq<string>, remaining: nat, allowance: nat)
    requires Collecting(chunks, index, parts, remaining, allowance) && index > 0 && remaining > 0
    ensures var part := PartOf(chunks[index - 1], remaining);
            Collecting(chunks, index - 1, parts + [part], remaining - |part|, allowance)
  {
    var chunk := chunks[index - 1];
    var part := PartOf(chunk, remaining);
    var head, tail := Join(chunks[..index - 1]), JoinReversed(parts);
    assert Join(chunks) == head + chunk + tail by {
      JoinLast(chunks, index);
    }
    assert JoinReversed(parts + [part]) == part + tail by {
      JoinReversedPush(parts, part);
    }
    TakePart(head, chunk, tail, remaining);
  }

  lemma Collected(chunks: seq<string>, index: nat, parts: seq<string>, remaining: nat, allowance: nat)
    requires Collecting(chunks, index, parts, remaining, allowance) && (index == 0 || remaining == 0)
    ensures JoinReversed(parts) == LastN(Join(chunks), allowance)
  {
    assert chunks[..0] == [];
  }

  /** One more chunk, or its last part, joined on the left is still the end of the whole. */
  lemma TakePart(head: string, chunk: string, rest: string, remaining: nat)
    ensures PartOf(chunk, remaining) + rest == LastN(head + chunk + rest, |PartOf(chunk, remaining)| + |rest|)
    ensures head + chunk + rest == head + (chunk + rest)
  {
    var part := PartOf(chunk, remaining);
    var front := chunk[..|chunk| - |part|];
    assert chunk == front + part;
    assert head + chunk + rest == (head + front) + (part + rest);
    LastNIsEnd(head + front, part + rest);
  }

  lemma LastNIsEnd(front: string, end: string)
    ensures LastN(front + end, |end|) == end
  {
  }

  /** What a caller asking for `maxChars` is allowed at most. */
  function Allowance(maxChars: int, ceiling: int): (r: int)
    ensures ceiling >= 1 ==> 1 <= r <= ceiling && (r == maxChars <==> 1 <= maxChars <= ceiling)
    ensures ceiling >= 1 && r != maxChars ==> r == if maxChars < 1 then 1 else ceiling
  {
    Max(1, Min(maxChars, ceiling))
  }

  class BoundedCapture {
    ghost var all: string          // everything ever appended
    ghost var oversized: bool      // some single append filled the whole buffer
    var chunks: seq<string>
    var length: nat
    var truncated: bool

    ghost predicate Valid()
      reads this
    {
      && NoneEmpty(chunks)
      && Join(chunks) == LastN(all, MAX_CAPTURE_CHARS)
      && length == |Join(chunks)|
      && truncated == (|all| > MAX_CAPTURE_CHARS || oversized)
      && (oversized ==> |all| >= MAX_CAPTURE_CHARS)
    }

    constructor ()
      ensures Valid() && all == "" && !oversized
    {
      all, oversized := "", false;
      chunks, length, truncated := [], 0, false;
    }

    method Append(text: string)
      requires Valid()
      modifies this
      ensures Valid() && all == old(all) + text
      ensures oversized == (old(oversized) || |text| >= MAX_CAPTURE_CHARS)
    {
      if text == "" {
        assert all + text == all;
        return;
      }
      if |text| >= MAX_CAPTURE_CHARS {
        var kept := text[|text| - MAX_CAPTURE_CHARS..];
        AppendLarge(all, text);
        all, oversized := all + text, true;
        chunks, length, truncated := [kept], |kept|, true;
        return;
      }
      AppendSmall(chunks, all, text);
      all := all + text;
      chunks := chunks + [text];
      length := length + |text|;
      Shrink(Join(chunks));
    }

    /** Drops the oldest characters until the rest fits. */
    method Shrink(ghost whole: string)
      requires Trimming(chunks, length, whole) && length == |whole|
      modifies this
      ensures NoneEmpty(chunks) && Join(chunks) == LastN(whole, MAX_CAPTURE_CHARS) && length == |Join(chunks)|
      ensures truncated == (old(truncated) || |whole| > MAX_CAPTURE_CHARS)
      ensures all == old(all) && oversized == old(oversized)
    {
      while length > MAX_CAPTURE_CHARS
        invariant Trimming(chunks, length, whole)
        invariant truncated == (old(truncated) || length < |whole|)
        invariant all == old(all) && oversized == old(oversized)
        decreases length
      {
        ShrinkOnce(whole);
      }
      Trimmed(chunks, length, whole);
    }

    /** The oldest chunk goes, or loses its first characters if it covers the overflow. */
    method ShrinkOnce(ghost whole: string)
      requires Trimming(chunks, length, whole) && length > MAX_CAPTURE_CHARS
      modifies this
      ensures Trimming(chunks, length, whole) && length < old(length) && truncated
      ensures all == old(all) && oversized == old(oversized)
    {
      var overflow := length - MAX_CAPTURE_CHARS;
      Overfull(chunks, length, whole);
      truncated := true;
      if |chunks[0]| <= overflow {
        DropOldest(chunks, length, whole);
        length := length - |chunks[0]|;
        chunks := chunks[1..];
      } else {
        CutOldest(chunks, length, whole);
        chunks := [chunks[0][overflow..]] + chunks[1..];
        length := length - overflow;
      }
    }

    /** The last characters of the stream, how many of the captured ones were cut, and whether
        anything may be missing. */
    method Tail(maxChars: int, ceiling: int) returns (text: string, cut: bool, dropped: int)
      requires Valid()
      ensures text == LastN(LastN(all, MAX_CAPTURE_CHARS), Allowance(maxChars, ceiling))
      ensures dropped == Min(|all|, MAX_CAPTURE_CHARS) - |text|
      ensures cut == (truncated || Min(|all|, MAX_CAPTURE_CHARS) > maxChars)
    {
      var remaining := Allowance(maxChars, ceiling);
      var parts: seq<string> := [];
      var index := |chunks|;
      assert chunks[..index] == chunks;
      while index > 0 && remaining > 0
        invariant 0 <= index && 0 <= remaining
        invariant Collecting(chunks, index, parts, remaining, Allowance(maxChars, ceiling))
      {
        var chunk := chunks[index - 1];
        var part := PartOf(chunk, remaining);
        CollectStep(chunks, index, parts, remaining, Allowance(maxChars, ceiling));
        parts := parts + [part];
        remaining := remaining - |part|;
        index := index - 1;
      }
      Collected(chunks, index, parts, remaining, Allowance(maxChars, ceiling));
      text := JoinReversed(parts);
      dropped := Max(0, length - |text|);
      cut := truncated || length > maxChars;
    }

    method Full() returns (text: string, cut: bool)
      requires Valid()
      ensures text == LastN(all, MAX_CAPTURE_CHARS) && cut == truncated
    {
      text, cut := "", truncated;
      var index := 0;
      assert chunks[..0] == [];
      while index < |chunks|
        invariant 0 <= index <= |chunks| && text == Join(chunks[..index])
      {
        JoinLast(chunks, index + 1);
        text := text + chunks[index];
        index := index + 1;
      }
      assert chunks[..index] == chunks;
    }
  }
}
