/** The file side of the bounded log: batches of lines, gathered into chunks, written to a live
    file that is moved to the archive when it is full or too old. */
module RotatingLog {
  import opened Basics

  type Byte = b: int | 0 <= b < 256
  type Bytes = seq<Byte>

  function Flatten<T>(parts: seq<seq<T>>): seq<T> {
    if parts == [] then [] else Flatten(parts[..|parts| - 1]) + parts[|parts| - 1]
  }

  lemma FlattenPush<T>(parts: seq<seq<T>>, p: seq<T>)
    ensures Flatten(parts + [p]) == Flatten(parts) + p
  {
    assert (parts + [p])[..|parts|] == parts;
  }

  lemma {:induction false} FlattenConcat<T>(a: seq<seq<T>>, b: seq<seq<T>>)
    ensures Flatten(a + b) == Flatten(a) + Flatten(b)
  {
    if b == [] {
      assert a + b == a;
    } else {
      var init, last := b[..|b| - 1], b[|b| - 1];
      assert b == init + [last] && a + b == (a + init) + [last];
      FlattenPush(a + init, last);
      FlattenConcat(a, init);
    }
  }

  /** A file made of `pieces` (what it held when opened, then one line after the other) is within
      the limit, or holds nothing but a single piece that alone is not. */
  ghost predicate WithinLimit(pieces: seq<Bytes>, maxBytes: nat) {
    |Flatten(pieces)| <= maxBytes || Flatten(pieces) in pieces
  }

  ghost predicate AllWithinLimit(archives: seq<Bytes>, pieces: seq<seq<Bytes>>, maxBytes: nat) {
    && |pieces| == |archives|
    && forall i :: 0 <= i < |archives| ==> Flatten(pieces[i]) == archives[i] && WithinLimit(pieces[i], maxBytes)
  }

  lemma ArchiveOne(archives: seq<Bytes>, pieces: seq<seq<Bytes>>, file: Bytes, filePieces: seq<Bytes>, maxBytes: nat)
    requires AllWithinLimit(archives, pieces, maxBytes)
    requires Flatten(filePieces) == file && WithinLimit(filePieces, maxBytes)
    ensures AllWithinLimit(archives + [file], pieces + [filePieces], maxBytes)
    ensures Flatten(pieces + [filePieces]) + [] + [] == Flatten(pieces) + filePieces + []
  {
    FlattenPush(pieces, filePieces);
    assert (Flatten(pieces) + filePieces) + [] + [] == Flatten(pieces) + filePieces + [];
  }

  /** An empty file is within every limit. */
  lemma NothingFits(maxBytes: nat)
    ensures Flatten<Byte>([]) == [] && WithinLimit([], maxBytes)
  {
  }

  /** A line may go on after `live` and `chunk` when it fits, or when nothing is there yet. */
  lemma GatheredLine(live: seq<Bytes>, chunk: seq<Bytes>, line: Bytes, maxBytes: nat)
    requires |Flatten(live)| + |Flatten(chunk)| == 0 || |Flatten(live)| + |Flatten(chunk)| + |line| <= maxBytes
    ensures WithinLimit(live + (chunk + [line]), maxBytes)
    ensures Flatten(chunk + [line]) == Flatten(chunk) + line
  {
    FlattenConcat(live, chunk);
    FlattenPush(chunk, line);
    Assoc(live, chunk, [line]);
    NextLineFits(live + chunk, line, maxBytes);
  }

  lemma NextLineFits(pieces: seq<Bytes>, line: Bytes, maxBytes: nat)
    requires |Flatten(pieces)| == 0 || |Flatten(pieces)| + |line| <= maxBytes
    ensures WithinLimit(pieces + [line], maxBytes)
  {
    FlattenPush(pieces, line);
    assert (pieces + [line])[|pieces|] == line;
    assert |Flatten(pieces)| == 0 ==> Flatten(pieces) + line == line;
  }

  /** The bytes of all files are the bytes of all pieces. */
  lemma {:induction false} ArchivesAreTheirPieces(archives: seq<Bytes>, pieces: seq<seq<Bytes>>, maxBytes: nat)
    requires AllWithinLimit(archives, pieces, maxBytes)
    ensures Flatten(archives) == Flatten(Flatten(pieces))
  {
    if archives == [] {
    } else {
      var n := |archives| - 1;
      ArchivesAreTheirPieces(archives[..n], pieces[..n], maxBytes);
      FlattenConcat(Flatten(pieces[..n]), pieces[n]);
    }
  }

  class RotatingFile {
    const maxBytes: nat
    const maxAgeMs: nat
    const maxBatchBytes: nat
    var open: bool                 // a handle is held
    var size: nat
    var openedAt: int
    var live: Bytes                // the live file; absent and empty are the same to the writer
    var modifiedAt: int            // its modification time
    var archives: seq<Bytes>       // rotated files, oldest first
    var chunk: Bytes               // gathered but not written
    ghost var livePieces: seq<Bytes>
    ghost var chunkPieces: seq<Bytes>
    ghost var archivePieces: seq<seq<Bytes>>

    ghost predicate Valid()
      reads this
    {
      && (open ==> size == |live|)
      && Flatten(livePieces) == live && Flatten(chunkPieces) == chunk
      && AllWithinLimit(archives, archivePieces, maxBytes)
      && WithinLimit(livePieces, maxBytes) && WithinLimit(livePieces + chunkPieces, maxBytes)
    }

    /** Everything logged, oldest piece first; the pieces of one file are consecutive. */
    ghost function Pieces(): seq<Bytes>
      reads this
    {
      Flatten(archivePieces) + livePieces + chunkPieces
    }

    /** The bytes of the archives in order, then of the live file. */
    ghost function OnDisk(): Bytes
      reads this
    {
      Flatten(archives) + live
    }

    lemma DiskHoldsPieces()
      requires Valid() && chunkPieces == []
      ensures OnDisk() == Flatten(Pieces())
    {
      ArchivesAreTheirPieces(archives, archivePieces, maxBytes);
      FlattenConcat(Flatten(archivePieces), livePieces);
      assert Flatten(archivePieces) + livePieces + [] == Flatten(archivePieces) + livePieces;
    }

    /** Takes over whatever an earlier run left behind. */
    constructor (maxBytes: nat, maxAgeMs: nat, maxBatchBytes: nat, live: Bytes, modifiedAt: int, archives: seq<Bytes>)
      requires maxBytes >= 1 && maxAgeMs >= 1 && maxBatchBytes >= 1
      ensures Valid() && chunk == [] && chunkPieces == [] && this.live == live && this.archives == archives
      ensures livePieces == [live] && |archivePieces| == |archives| && !open
      ensures forall i :: 0 <= i < |archives| ==> archivePieces[i] == [archives[i]]
      ensures this.maxBytes == maxBytes && this.maxAgeMs == maxAgeMs && this.maxBatchBytes == maxBatchBytes
    {
      this.maxBytes, this.maxAgeMs, this.maxBatchBytes := maxBytes, maxAgeMs, maxBatchBytes;
      this.open, this.size, this.openedAt := false, 0, 0;
      this.live, this.modifiedAt, this.archives := live, modifiedAt, archives;
      this.chunk, chunkPieces := [], [];
      livePieces := [live];
      archivePieces := seq(|archives|, i requires 0 <= i < |archives| => [archives[i]]);
      new;
      OnePiece(live);
      forall i | 0 <= i < |archives| ensures Flatten(archivePieces[i]) == archives[i] && WithinLimit(archivePieces[i], maxBytes) {
        OnePiece(archives[i]);
        assert archivePieces[i][0] == archives[i];
      }
      assert livePieces[0] == live && livePieces + chunkPieces == livePieces;
    }

    /** The clock may say anything. */
    method Now() returns (t: int)
    {
      t := *;
    }

    /** A file that holds something is as old as its last modification, a new one as the clock says. */
    method EnsureOpen(now: int)
      requires Valid()
      modifies this`open, this`size, this`openedAt
      ensures Valid() && open && (old(open) ==> size == old(size) && openedAt == old(openedAt))
      ensures !old(open) ==> openedAt == if live != [] then modifiedAt else now
    {
      if open {
        return;
      }
      open := true;
      size := |live|;
      if size > 0 {
        openedAt := modifiedAt;
      } else {
        openedAt := now;
      }
    }

    /** Lets go of the handle; the next batch opens the file again. */
    method CloseHandle()
      requires Valid()
      modifies this`open, this`modifiedAt
      ensures Valid() && !open
    {
      open := false;
      modifiedAt := Now();
    }

    /** The file has content and, by this reading of the clock, has reached its age. */
    predicate AgeExpired(now: int)
      reads this
    {
      size > 0 && now - openedAt >= maxAgeMs
    }

    /** Whether the next `nextBytes` must go to a new file: never into an empty one, and otherwise
        exactly when they do not fit or the file has reached its age. */
    method RotationRequired(nextBytes: nat, bufferedBytes: nat, now: int) returns (required: bool)
      ensures required <==> size + bufferedBytes > 0 && (size + bufferedBytes + nextBytes > maxBytes || AgeExpired(now))
    {
      if size + bufferedBytes == 0 {
        return false;
      }
      if size + bufferedBytes + nextBytes > maxBytes {
        return true;
      }
      required := size > 0 && now - openedAt >= maxAgeMs;
    }

    method FlushChunk()
      requires Valid() && open
      modifies this`live, this`size, this`chunk, this`livePieces, this`chunkPieces
      ensures Valid() && chunk == [] && chunkPieces == []
      ensures live == old(live) + old(chunk) && Pieces() == old(Pieces())
    {
      FlattenConcat(livePieces, chunkPieces);
      Assoc(Flatten(archivePieces), livePieces, chunkPieces);
      live := live + chunk;
      size := size + |chunk|;
      livePieces := livePieces + chunkPieces;
      chunk, chunkPieces := [], [];
      assert livePieces + [] == livePieces;
      assert Pieces() == Flatten(archivePieces) + livePieces;
    }

    /** The live file, complete and not empty, becomes the newest archive. */
    method Rotate(now: int)
      requires Valid() && open && chunk == [] && chunkPieces == [] && live != []
      modifies this`live, this`size, this`open, this`openedAt, this`archives, this`livePieces, this`archivePieces
      ensures Valid() && open && size == 0
      ensures live == [] && archives == old(archives) + [old(live)] && Pieces() == old(Pieces())
      ensures openedAt == now
    {
      ArchiveOne(archives, archivePieces, live, livePieces, maxBytes);
      NothingFits(maxBytes);
      open := false;
      archives, archivePieces := archives + [live], archivePieces + [livePieces];
      live, livePieces := [], [];
      assert livePieces + chunkPieces == [];
      EnsureOpen(now);
    }

    /** Flushes and rotates if `line` may not join what the live file and the chunk hold. The clock
        is read once before the flush, once after it, and once for the new file. */
    method MakeRoom(line: Bytes, now: int, later: int, rotatedAt: int)
      requires Valid() && open
      modifies this
      ensures Valid() && open && Pieces() == old(Pieces())
      ensures |live| + |chunk| == 0 || |live| + |chunk| + |line| <= maxBytes
      ensures archives == if old(Rotates(line, now, later)) then old(archives) + [old(live) + old(chunk)] else old(archives)
      ensures openedAt == if old(Rotates(line, now, later)) then rotatedAt else old(openedAt)
    {
      var required := RotationRequired(|line|, |chunk|, now);
      if required {
        FlushChunk();
        required := RotationRequired(|line|, 0, later);
        if required {
          Rotate(rotatedAt);
        }
      }
    }

    /** The line makes the live file, with the chunk, the newest archive: it does not fit behind
        them, or the file has reached its age by both readings of the clock. */
    ghost predicate Rotates(line: Bytes, now: int, later: int)
      reads this
    {
      && |live| + |chunk| > 0
      && (|live| + |chunk| + |line| > maxBytes || (live != [] && Min(now, later) - openedAt >= maxAgeMs))
    }

    method Gather(line: Bytes)
      requires Valid() && open && (|live| + |chunk| == 0 || |live| + |chunk| + |line| <= maxBytes)
      modifies this`chunk, this`chunkPieces
      ensures Valid() && Pieces() == old(Pieces()) + [line] && chunk == old(chunk) + line
    {
      ghost var gathered := chunkPieces + [line];
      assert WithinLimit(livePieces + gathered, maxBytes) && Flatten(gathered) == chunk + line by {
        GatheredLine(livePieces, chunkPieces, line, maxBytes);
      }
      assert Flatten(archivePieces) + livePieces + gathered == Pieces() + [line] by {
        Assoc(Flatten(archivePieces) + livePieces, chunkPieces, [line]);
      }
      chunk, chunkPieces := chunk + line, gathered;
    }

    /** One line of a batch joins the chunk, after whatever flush and rotation it makes necessary. */
    method AddLine(line: Bytes, now: int, later: int, rotatedAt: int)
      requires Valid() && open
      modifies this
      ensures Valid() && open && Pieces() == old(Pieces()) + [line]
      ensures |chunk| <= maxBatchBytes || chunk == line
      ensures archives == if old(Rotates(line, now, later)) then old(archives) + [old(live) + old(chunk)] else old(archives)
      ensures openedAt == if old(Rotates(line, now, later)) then rotatedAt else old(openedAt)
    {
      MakeRoom(line, now, later, rotatedAt);
      if |chunk| > 0 && |chunk| + |line| > maxBatchBytes {
        FlushChunk();
      }
      Gather(line);
    }

    /** A batch ends on disk whole: every line once, in order, none split between files, and
        files already archived stay as they are. */
    method WriteBatch(lines: seq<Bytes>)
      requires Valid() && chunkPieces == []
      modifies this
      ensures Valid() && open && chunkPieces == []
      ensures Pieces() == old(Pieces()) + lines && OnDisk() == old(OnDisk()) + Flatten(lines)
      ensures old(archives) <= archives
    {
      DiskHoldsPieces();
      FlattenConcat(Pieces(), lines);
      GatherAll(lines);
      FlushChunk();
      DiskHoldsPieces();
    }

    method GatherAll(lines: seq<Bytes>)
      requires Valid()
      modifies this
      ensures Valid() && open && Pieces() == old(Pieces()) + lines
      ensures old(archives) <= archives
    {
      var start := Now();
      EnsureOpen(start);
      var i := 0;
      assert lines[..0] == [] && Pieces() + [] == Pieces();
      while i < |lines|
        invariant 0 <= i <= |lines| && Valid() && open
        invariant Pieces() == old(Pieces()) + lines[..i]
        invariant old(archives) <= archives
      {
        assert lines[..i + 1] == lines[..i] + [lines[i]];
        Assoc(old(Pieces()), lines[..i], [lines[i]]);
        var now := Now();
        var later := Now();
        var rotatedAt := Now();
        AddLine(lines[i], now, later, rotatedAt);
        i := i + 1;
      }
      assert lines[..i] == lines;
    }
  }

  lemma OnePiece(p: Bytes)
    ensures Flatten([p]) == p
  {
    assert [p][..0] == [];
  }
}
