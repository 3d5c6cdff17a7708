/**
 The host side of the RT message stack: bulk reads of a ring that is being written.
 Every method may be interrupted by the board between any two of its memory accesses.
 */
module RtBlockRead {
  import opened Common
  import opened RingArithmetic
  import opened StackBoard

  const NOT_OVERWRITTEN := -2

  /** Remainder as C takes it: the sign follows the dividend. */
  function CRemainder(a: int, n: nat): int
    requires n > 0
  {
    if a >= 0 then a % n else -((-a) % n)
  }

  /** Ring bytes [src, src+len) are stream bytes k..k+len of one lap, and all are written. */
  ghost predicate InLap(board: Board, src: nat, len: nat, k: nat)
    requires board.ringSize > 0
    reads board
  {
    && k + len <= |board.log|
    && (len > 0 ==>
          && src == board.ringStart + Position(k, board.ringSize)
          && Position(k, board.ringSize) + len <= board.ringSize)
  }

  lemma InLapTail(board: Board, src: nat, len: nat, k: nat, i: nat)
    requires board.ringSize > 0 && InLap(board, src, len, k) && i <= len
    ensures InLap(board, src + i, len - i, k + i)
  {
    if i < len {
      PositionShifts(k, i, board.ringSize);
    }
  }

  /**
   `got` is a copy of stream bytes k, k+1, ... in which every byte is right except those
   that the board has meanwhile lapped.
   */
  ghost predicate Faithful(got: seq<byte>, k: nat, log: seq<byte>, size: nat)
  {
    && k + |got| <= |log|
    && forall i :: 0 <= i < |got| && |log| <= k + i + size ==> got[i] == log[k + i]
  }

  lemma FaithfulAsBoardGrows(got: seq<byte>, k: nat, log: seq<byte>, log': seq<byte>, size: nat)
    requires Faithful(got, k, log, size) && log <= log'
    ensures Faithful(got, k, log', size)
  {
  }

  lemma FaithfulJoin(a: seq<byte>, b: seq<byte>, k: nat, log: seq<byte>, size: nat)
    requires Faithful(a, k, log, size) && Faithful(b, k + |a|, log, size)
    ensures Faithful(a + b, k, log, size)
  {
    forall i | 0 <= i < |a + b| && |log| <= k + i + size
      ensures (a + b)[i] == log[k + i]
    {
      if i >= |a| {
        assert b[i - |a|] == log[k + |a| + (i - |a|)];
      }
    }
  }

  /** What a single access takes out of the ring is right at that moment. */
  lemma FaithfulFromRing(ram: seq<byte>, start: nat, size: nat, log: seq<byte>, k: nat, len: nat)
    requires 0 < size && start + size <= |ram| && Mirrors(ram, start, size, log)
    requires k + len <= |log| && Position(k, size) + len <= size
    ensures Faithful(ram[start + Position(k, size) ..][..len], k, log, size)
  {
    var got := ram[start + Position(k, size) ..][..len];
    forall i | 0 <= i < len && |log| <= k + i + size
      ensures got[i] == log[k + i]
    {
      PositionShifts(k, i, size);
      assert got[i] == ram[start + Position(k + i, size)];
    }
  }

  /** The buffer's bytes lo..hi copy stream bytes k.., right except where lapped. */
  ghost predicate Captured(board: Board, buffer: array<byte>, lo: nat, hi: nat, k: nat)
    reads board, buffer
  {
    lo <= hi <= buffer.Length && Faithful(buffer[lo..hi], k, board.log, board.ringSize)
  }

  twostate predicate Grown(board: Board)
    reads board
  {
    old(board.log) <= board.log && old(board.count) <= board.count
  }

  ghost predicate Ready(board: Board, buffer: array<byte>)
    reads board, board.dpram
  {
    board.Valid() && buffer != board.dpram
  }

  lemma NothingCaptured(board: Board, buffer: array<byte>, lo: nat, k: nat)
    requires k <= |board.log| && lo <= buffer.Length
    ensures Captured(board, buffer, lo, lo, k)
  {
  }

  /** One bus access of `width` bytes; the board may run before it, not during it. */
  method CopyUnit(board: Board, src: nat, buffer: array<byte>, at: nat, width: nat, ghost lo: nat, ghost k: nat)
    requires Ready(board, buffer) && 0 < width && lo <= at && InLap(board, src, width, k + at - lo)
    requires at + width <= buffer.Length && Captured(board, buffer, lo, at, k)
    modifies buffer, board, board.dpram
    ensures Ready(board, buffer) && Grown(board) && buffer[..lo] == old(buffer[..lo])
    ensures Captured(board, buffer, lo, at + width, k)
  {
    hide Faithful, Mirrors, Position, At, Slot;
    ghost var before := buffer[lo..at];
    board.Interfere();
    FaithfulAsBoardGrows(before, k, old(board.log), board.log, board.ringSize);
    ghost var ram := board.dpram[..];
    FaithfulFromRing(ram, board.ringStart, board.ringSize, board.log, k + at - lo, width);
    forall i | 0 <= i < width {
      buffer[at + i] := board.dpram[src + i];
    }
    assert board.dpram[..] == ram && buffer[at..at + width] == ram[src..][..width];
    assert buffer[lo..at + width] == before + buffer[at..at + width];
    FaithfulJoin(before, buffer[at..at + width], k, board.log, board.ringSize);
  }

  /** Accesses of `width` bytes, appended to the first `at` bytes, while a whole one is wanted. */
  method CopyAccesses(board: Board, src: nat, buffer: array<byte>, at: nat, size: nat, width: nat, ghost lo: nat,
                      ghost k: nat)
    returns (copied: nat)
    requires Ready(board, buffer) && 0 < width && lo <= at && InLap(board, src, size, k + at - lo)
    requires at + size <= buffer.Length && Captured(board, buffer, lo, at, k)
    modifies buffer, board, board.dpram
    ensures Ready(board, buffer) && Grown(board) && buffer[..lo] == old(buffer[..lo])
    ensures copied <= size < copied + width
    ensures size % width == 0 ==> copied == size
    ensures Captured(board, buffer, lo, at + copied, k)
  {
    hide Faithful, Mirrors, Position, At, Slot;
    copied := 0;
    ghost var units := 0;
    while copied + width <= size
      invariant copied <= size && copied == units * width
      invariant Ready(board, buffer) && Grown(board) && buffer[..lo] == old(buffer[..lo])
      invariant Captured(board, buffer, lo, at + copied, k)
    {
      InLapTail(board, src, size, k + at - lo, copied);
      CopyUnit(board, src + copied, buffer, at + copied, width, lo, k);
      copied, units := copied + width, units + 1;
    }
    QuotientIsUnique(size, units, width, size - copied);
  }

  /** Reads more than fits into one packet by several reads of whole words. */
  method ChunkedRead(board: Board, src: nat, buffer: array<byte>, at: nat, size: nat, maxRead: nat, ghost lo: nat,
                     ghost k: nat)
    requires Ready(board, buffer) && lo <= at && InLap(board, src, size, k + at - lo)
    requires at + size <= buffer.Length && Captured(board, buffer, lo, at, k)
    requires size % 2 == 0 && maxRead % 2 == 0 && maxRead > 0
    modifies buffer, board, board.dpram
    ensures Ready(board, buffer) && Grown(board) && buffer[..lo] == old(buffer[..lo])
    ensures Captured(board, buffer, lo, at + size, k)
  {
    hide Faithful, Mirrors, Position, At, Slot;
    var left, readSoFar := size, 0;
    ghost var words := size / 2;
    while left > 0
      invariant 0 <= left && 0 <= readSoFar && left + readSoFar == size && left == 2 * words
      invariant Ready(board, buffer) && Grown(board) && buffer[..lo] == old(buffer[..lo])
      invariant Captured(board, buffer, lo, at + readSoFar, k)
    {
      var thisRead := if left > maxRead then maxRead else left;
      InLapTail(board, src, size, k + at - lo, readSoFar);
      var _ := CopyAccesses(board, src + readSoFar, buffer, at + readSoFar, thisRead, 2, lo, k);
      readSoFar, left, words := readSoFar + thisRead, left - thisRead, words - thisRead / 2;
    }
  }

  /** A DMA transfer: it either copies every byte, one after another, or reports failure. */
  method PerformDMARead(board: Board, src: nat, buffer: array<byte>, at: nat, size: nat, works: bool, ghost lo: nat,
                        ghost k: nat)
    returns (status: int)
    requires Ready(board, buffer) && lo <= at && InLap(board, src, size, k + at - lo)
    requires at + size <= buffer.Length && (works ==> Captured(board, buffer, lo, at, k))
    modifies buffer, board, board.dpram
    ensures Ready(board, buffer) && Grown(board) && buffer[..lo] == old(buffer[..lo])
    ensures status == 0 <==> works
    ensures !works ==> unchanged(board, board.dpram, buffer)
    ensures works ==> Captured(board, buffer, lo, at + size, k)
  {
    if !works {
      return -1;
    }
    var _ := CopyAccesses(board, src, buffer, at, size, 1, lo, k);
    status := 0;
  }

  /**
   The programmed copy: by double words when both addresses allow it, else by words, else by
   bytes, and the odd bytes at the end.  `destAlign` is the address of buffer[0].
   */
  method MyMemCopy(board: Board, src: nat, buffer: array<byte>, at: nat, size: nat,
                   is32bitAccess: bool, destAlign: nat, ghost lo: nat, ghost k: nat)
    requires Ready(board, buffer) && lo <= at && InLap(board, src, size, k + at - lo)
    requires at + size <= buffer.Length && Captured(board, buffer, lo, at, k)
    modifies buffer, board, board.dpram
    ensures Ready(board, buffer) && Grown(board) && buffer[..lo] == old(buffer[..lo])
    ensures Captured(board, buffer, lo, at + size, k)
  {
    var width :=
      if src % 4 == 0 && (destAlign + at) % 4 == 0 && is32bitAccess then 4
      else if src % 2 == 0 && (destAlign + at) % 2 == 0 then 2
      else 1;
    var copied := CopyAccesses(board, src, buffer, at, size, width, lo, k);
    InLapTail(board, src, size, k + at - lo, copied);
    var _ := CopyAccesses(board, src + copied, buffer, at + copied, size - copied, 1, lo, k);
  }

  /** Where a run of `want` messages from message `first` on lies in the ring, and where it wraps. */
  lemma RunInRing(first: nat, want: nat, e: nat, n: nat)
    requires 0 < e && 0 < n && want <= n
    ensures 0 <= At(first, e) && 0 <= At(want, e) <= At(n, e)
    ensures 0 <= At(Slot(first, n), e) && At(Slot(first, n), e) + e <= At(n, e)
    ensures At(n, e) - At(Slot(first, n), e) == At(n - Slot(first, n), e)
    ensures Position(At(first, e), At(n, e)) == At(Slot(first, n), e)
    ensures Position(At(first, e) + At(n - Slot(first, n), e), At(n, e)) == 0
    ensures At(want, e) == At(n - Slot(first, n), e) + At(want - (n - Slot(first, n)), e)
    ensures want > n - Slot(first, n) ==> 0 < At(want - (n - Slot(first, n)), e)
    ensures want <= n - Slot(first, n) ==> At(want, e) <= At(n - Slot(first, n), e)
    ensures 0 < want ==> 0 < At(want, e)
    ensures At(first, e) + At(want, e) == At(first + want, e)
  {
    hide At, Slot, Position;
    var room := n - Slot(first, n);
    SlotPosition(first, 0, e, n);
    LapEnds(first, e, n);
    AtZero(e);
    AtGrows(0, first, e);
    AtGrows(0, want, e);
    AtGrows(want, n, e);
    AtAdds(room, want - room, e);
    AtAdds(first, want, e);
    if want > room {
      AtGrows(0, want - room, e);
    } else {
      AtGrows(want, room, e);
    }
  }

  /** Dividing a whole number of entries by the entry size. */
  lemma WholeEntries(m: nat, e: nat)
    requires 0 < e
    ensures At(m, e) / e == m
  {
    QuotientIsUnique(m * e, m, e, 0);
  }

  /** Entries left before the end of the ring, the way the source derives them from addresses. */
  lemma EntriesTillEnd(room: nat, e: nat)
    requires 2 <= e
    ensures (At(room, e) + 1) / e == room
  {
    QuotientIsUnique(room * e + 1, room, e, 1);
  }

  predicate Even(x: int) { x % 2 == 0 }

  lemma EvenMultiple(a: int, e: int)
    ensures Even(e) ==> Even(At(a, e))
  {
    if Even(e) {
      assert a * e == (a * (e / 2)) * 2 by { assert e == e / 2 * 2; }
    }
  }

  /** The flag after skipping: never NOT_OVERWRITTEN; after a lap, the slot of the first entry kept. */
  lemma FlagAfterSkip(flag: int, count: nat, skip: nat, n: nat)
    requires 0 < n && 0 < skip
    requires flag == NOT_OVERWRITTEN || (n <= count && flag == Slot(count, n))
    ensures CRemainder(flag + skip, n) != NOT_OVERWRITTEN
    ensures flag != NOT_OVERWRITTEN ==> CRemainder(flag + skip, n) == Slot(count - (n - skip), n)
  {
    if flag != NOT_OVERWRITTEN {
      QuotientIsUnique(count - (n - skip), count / n - 1 + (flag + skip) / n, n, (flag + skip) % n);
    } else if n > 1 && skip == 1 {
      QuotientIsUnique(1, 0, n, 1);
    } else if n == 1 && skip == 1 {
      QuotientIsUnique(1, 1, 1, 0);
    }
  }

  /**
   Without a lap before, the flag after a skip is -2 plus the entries skipped.  That is the slot of the
   first entry kept just if two or more were skipped and the last read ended two slots before the ring's end.
   */
  lemma FlagNamesSlotWhen(first: nat, skip: nat, n: nat)
    requires 2 <= n && 0 < skip
    ensures CRemainder(NOT_OVERWRITTEN + skip, n) == Slot(first + skip, n) <==> 2 <= skip && Slot(first + 2, n) == 0
  {
    if skip == 1 {
      QuotientIsUnique(1, 0, n, 1);
    } else {
      SameSlotWhen(skip - 2, first + 2, n);
    }
  }

  /** Adding to a position leaves its slot the same just if whole laps are added. */
  lemma SameSlotWhen(a: nat, b: nat, n: nat)
    requires 0 < n
    ensures Slot(a, n) == Slot(a + b, n) <==> Slot(b, n) == 0
  {
    if Slot(b, n) == 0 {
      QuotientIsUnique(a + b, a / n + b / n, n, a % n);
    } else if a % n + b % n < n {
      QuotientIsUnique(a + b, a / n + b / n, n, a % n + b % n);
    } else {
      QuotientIsUnique(a + b, a / n + b / n + 1, n, a % n + b % n - n);
    }
  }

  /** Ring of ten, five read before: two skipped, the flag says slot 0 and the first entry kept is in slot 7. */
  lemma FlagMisnamesSlot()
    ensures CRemainder(NOT_OVERWRITTEN + 2, 10) == 0 && Slot(5 + 2, 10) == 7
    ensures CRemainder(NOT_OVERWRITTEN + 1, 10) == -1
  {
    FlagNamesSlotWhen(5, 2, 10);
  }

  /** Once the entries the board may have lapped are skipped, the rest of the copy is exact. */
  lemma CleanAfterSkip(got: seq<byte>, first: nat, want: nat, skip: nat, d: nat, e: nat, n: nat, log: seq<byte>)
    requires |got| == At(want, e) && |log| == At(first + want + d, e)
    requires 0 <= At(first, e) && 0 <= At(n, e)
    requires skip <= want && want + d <= n + skip
    requires Faithful(got, At(first, e), log, At(n, e))
    ensures 0 <= At(skip, e) && 0 <= At(want - skip, e) && At(skip, e) + At(want - skip, e) == At(want, e)
    ensures 0 <= At(first + skip, e) <= At(first + want, e) <= |log|
    ensures got[At(skip, e)..] == log[At(first + skip, e)..At(first + want, e)]
  {
    hide At;
    AtZero(e);
    AtGrows(0, skip, e);
    AtGrows(0, want - skip, e);
    AtAdds(skip, want - skip, e);
    AtAdds(first, skip, e);
    AtAdds(first, want, e);
    AtAdds(first + skip, n, e);
    AtGrows(first + want + d, first + skip + n, e);
    AtGrows(first + want, first + want + d, e);
  }

  /** How the host reaches this module's memory. */
  datatype Device = Device(isUNet: bool, isUSB: bool, useDma: bool, is32bitAccess: bool)

  /** One of two DMA requests of one read is refused, `first` or the other. */
  predicate HalfRefused(dev: Device, size2: nat, dmaWorks: (bool, bool))
  {
    !dev.isUNet && dev.useDma && size2 > 0 && dmaWorks.0 != dmaWorks.1
  }

  /** The programmed copy of both stretches. */
  method CopyPlainly(dev: Device, board: Board, buffer: array<byte>, destAlign: nat, start1: nat, size1: nat,
                     start2: nat, size2: nat, ghost k: nat)
    returns (totalBytesRead: nat)
    requires Ready(board, buffer) && 0 < size1 && size1 + size2 <= buffer.Length
    requires InLap(board, start1, size1, k) && InLap(board, start2, size2, k + size1)
    requires size2 > 0 ==> start2 != 0
    modifies buffer, board, board.dpram
    ensures Ready(board, buffer) && Grown(board)
    ensures totalBytesRead == size1 + size2 && Captured(board, buffer, 0, totalBytesRead, k)
  {
    hide Faithful, Mirrors, Position, At, Slot;
    NothingCaptured(board, buffer, 0, k);
    MyMemCopy(board, start1, buffer, 0, size1, dev.is32bitAccess, destAlign, 0, k);
    totalBytesRead := size1;
    if start2 != 0 {
      MyMemCopy(board, start2, buffer, size1, size2, dev.is32bitAccess, destAlign, 0, k);
      totalBytesRead := totalBytesRead + size2;
    }
  }

  /**
   Copies two consecutive stretches of the ring by whatever access this device has.  If the DMA engine
   refuses all it is asked for, the programmed copy is used; if it refuses one request of two, only the
   other is copied, to its own place in the buffer.  Outside the packet link, the second stretch is copied
   only if its start is not zero.
   */
  method CopyBoth(dev: Device, board: Board, buffer: array<byte>, destAlign: nat, dmaWorks: (bool, bool),
                  start1: nat, size1: nat, start2: nat, size2: nat, ghost k: nat)
    returns (totalBytesRead: nat)
    requires Ready(board, buffer) && 0 < size1 && size1 + size2 <= buffer.Length
    requires InLap(board, start1, size1, k) && InLap(board, start2, size2, k + size1)
    requires size2 > 0 ==> start2 != 0
    requires dev.isUNet ==> Even(size1) && Even(size2)
    modifies buffer, board, board.dpram
    ensures Ready(board, buffer) && Grown(board)
    ensures !HalfRefused(dev, size2, dmaWorks) ==>
              totalBytesRead == size1 + size2 && Captured(board, buffer, 0, totalBytesRead, k)
    ensures HalfRefused(dev, size2, dmaWorks) && dmaWorks.0 ==>
              totalBytesRead == size1 && Captured(board, buffer, 0, size1, k)
    ensures HalfRefused(dev, size2, dmaWorks) && dmaWorks.1 ==>
              && totalBytesRead == size2 && buffer[..size1] == old(buffer[..size1])
              && Captured(board, buffer, size1, size1 + size2, k + size1)
  {
    hide Faithful, Mirrors, Position, At, Slot;
    NothingCaptured(board, buffer, 0, k);
    var bytesInMaxRead := if !dev.isUNet then 0x1000 else if dev.isUSB then 504 else 1440;
    totalBytesRead := 0;
    if dev.isUNet {
      ChunkedRead(board, start1, buffer, 0, size1, bytesInMaxRead, 0, k);
      ChunkedRead(board, start2, buffer, size1, size2, bytesInMaxRead, 0, k);
      totalBytesRead := size1 + size2;
    } else if dev.useDma {
      var status := PerformDMARead(board, start1, buffer, 0, size1, dmaWorks.0, 0, k);
      if status == 0 {
        totalBytesRead := size1;
      }
      if start2 != 0 {
        ghost var lo := if status == 0 then 0 else size1;
        NothingCaptured(board, buffer, size1, k + size1);
        status := PerformDMARead(board, start2, buffer, size1, size2, dmaWorks.1, lo, k + lo);
        if status == 0 {
          totalBytesRead := totalBytesRead + size2;
        }
      }
    }
    if totalBytesRead == 0 {
      totalBytesRead := CopyPlainly(dev, board, buffer, destAlign, start1, size1, start2, size2, k);
    }
  }

  /** How many entries lie from message `first` on to the end of the ring. */
  function Room(first: nat, n: nat): nat
    requires 0 < n
  {
    n - Slot(first, n)
  }

  /** Plans the one or two stretches of the ring that hold the wanted entries, oldest first. */
  method Stretches(board: Board, bufferStart: nat, bufferEnd: nat, overwritten: int,
                   lastCountRead: nat, currentCount: nat, entriesToRead: nat, ghost k: nat)
    returns (start1: nat, size1: nat, start2: nat, size2: nat)
    requires board.Valid() && 0 < bufferStart == board.ringStart && bufferEnd == bufferStart + board.ringSize
    requires 2 <= board.entrySize && 0 < entriesToRead <= board.entries && entriesToRead <= currentCount
    requires if overwritten == NOT_OVERWRITTEN then entriesToRead == currentCount - lastCountRead
             else entriesToRead == board.entries
    requires k == At(currentCount - entriesToRead, board.entrySize)
    requires k + At(entriesToRead, board.entrySize) <= |board.log|
    ensures 0 < size1 && size1 + size2 == At(entriesToRead, board.entrySize)
    ensures var room := Room(currentCount - entriesToRead, board.entries);
      if entriesToRead > room
        then size1 == At(room, board.entrySize) && size2 == At(entriesToRead - room, board.entrySize) > 0
      else size2 == 0
    ensures InLap(board, start1, size1, k) && InLap(board, start2, size2, k + size1)
    ensures size2 > 0 ==> start2 != 0
    ensures Even(board.entrySize) ==> Even(size1) && Even(size2)
  {
    hide Mirrors, At, Slot, Position, Even;
    var e, n := board.entrySize, board.entries;
    ghost var first: nat := currentCount - entriesToRead;
    RunInRing(first, entriesToRead, e, n);
    if overwritten == NOT_OVERWRITTEN {
      start1 := bufferStart + At(Slot(lastCountRead, n), e);
      EntriesTillEnd(n - Slot(first, n), e);
      var entriesTillEndOfBuffer := (bufferEnd - start1 + 1) / e;
      if entriesToRead > entriesTillEndOfBuffer {
        size1, start2, size2 := bufferEnd - start1, bufferStart, At(entriesToRead - entriesTillEndOfBuffer, e);
        EvenMultiple(entriesToRead - entriesTillEndOfBuffer, e);
        EvenMultiple(entriesTillEndOfBuffer, e);
      } else {
        size1, start2, size2 := At(entriesToRead, e), 0, 0;
        EvenMultiple(entriesToRead, e);
        EvenMultiple(0, e);
        AtZero(e);
      }
    } else {
      OneLapBack(currentCount, n);
      start1 := bufferStart + At(Slot(currentCount, n), e);
      size1, start2, size2 := bufferEnd - start1, bufferStart, start1 - bufferStart;
      EvenMultiple(n - Slot(first, n), e);
      EvenMultiple(Slot(first, n), e);
    }
  }

  /**
   Samples the counter again after the copy and steps over the entries that the board may have
   been writing over: `skip` of them, the rest are exact.
   */
  method SkipLapped(board: Board, buffer: array<byte>, currentCount: nat, entriesRead: nat, flag: int,
                    ghost whole: bool)
    returns (skip: nat, nummsgs: int, overwritten: int)
    requires Ready(board, buffer) && 0 < entriesRead <= board.entries && entriesRead <= currentCount <= board.count
    requires flag == NOT_OVERWRITTEN || (board.entries <= currentCount && flag == Slot(currentCount, board.entries))
    requires whole && flag != NOT_OVERWRITTEN ==> entriesRead == board.entries
    requires 0 <= At(entriesRead, board.entrySize) && 0 <= At(currentCount - entriesRead, board.entrySize)
    requires whole ==>
      Captured(board, buffer, 0, At(entriesRead, board.entrySize), At(currentCount - entriesRead, board.entrySize))
    modifies board, board.dpram
    ensures Ready(board, buffer) && Grown(board)
    ensures 0 <= At(skip, board.entrySize)
    ensures nummsgs == Min(entriesRead, board.entries - (board.count - currentCount)) == entriesRead - skip
    ensures overwritten == if skip == 0 then flag else CRemainder(flag + skip, board.entries)
    ensures overwritten == NOT_OVERWRITTEN ==> skip == 0
    ensures whole && flag != NOT_OVERWRITTEN && nummsgs >= 0 ==>
        overwritten == Slot(currentCount - nummsgs, board.entries)
    ensures flag == NOT_OVERWRITTEN && 0 < skip && 2 <= board.entries ==>
              (overwritten == Slot(currentCount - nummsgs, board.entries) <==>
               2 <= skip && Slot(currentCount - entriesRead + 2, board.entries) == 0)
    ensures whole && nummsgs >= 0 ==>
              Exactly(board, buffer, At(skip, board.entrySize), currentCount - nummsgs, currentCount)
  {
    hide Mirrors, Faithful, At, Slot, CRemainder;
    ghost var first: nat := currentCount - entriesRead;
    ghost var got, log := if whole then buffer[0..At(entriesRead, board.entrySize)] else [], board.log;
    board.Interfere();
    if whole { FaithfulAsBoardGrows(got, At(first, board.entrySize), log, board.log, board.ringSize); }
    var countsDuringRead := board.count - currentCount;
    if entriesRead + countsDuringRead <= board.entries {
      skip, nummsgs, overwritten := 0, entriesRead, flag;
      if flag != NOT_OVERWRITTEN && whole {
        OneLapBack(currentCount, board.entries);
      }
    } else {
      skip := entriesRead + countsDuringRead - board.entries;
      nummsgs, overwritten := entriesRead - skip, CRemainder(flag + skip, board.entries);
      FlagAfterSkip(flag, currentCount, skip, board.entries);
      if 2 <= board.entries { FlagNamesSlotWhen(first, skip, board.entries); }
    }
    AtZero(board.entrySize);
    AtGrows(0, skip, board.entrySize);
    if whole && nummsgs >= 0 {
      CleanAfterSkip(got, first, entriesRead, skip, countsDuringRead, board.entrySize, board.entries, board.log);
      assert buffer[At(skip, board.entrySize)..][..At(nummsgs, board.entrySize)] == got[At(skip, board.entrySize)..];
    }
  }

  /** buffer[at..] starts with exactly the entries of messages from..upTo, as the board wrote them. */
  ghost predicate Exactly(board: Board, buffer: array<byte>, at: int, from: int, upTo: int)
    reads board, buffer
  {
    var e := board.entrySize;
    && 0 <= At(from, e) <= At(upTo, e) <= |board.log|
    && 0 <= at <= at + At(upTo - from, e) <= buffer.Length
    && buffer[at..][..At(upTo - from, e)] == board.log[At(from, e)..At(upTo, e)]
  }

  // ---- A run of successive calls ----

  /**
   One call that found new messages: messages before `from` were read earlier, `upTo` is the
   count it read first, `returned` and `flag` are what it handed back.
   */
  datatype Call = Call(from: nat, upTo: nat, returned: int, flag: int)

  ghost predicate Sound(c: Call)
  {
    && c.from < c.upTo && c.returned <= c.upTo - c.from
    && (c.flag == NOT_OVERWRITTEN ==> c.returned == c.upTo - c.from)
  }

  ghost predicate Run(calls: seq<Call>)
  {
    && (forall i :: 0 <= i < |calls| ==> Sound(calls[i]))
    && (forall i :: 0 < i < |calls| ==> calls[i].from == calls[i - 1].upTo)
  }

  lemma RunExtends(calls: seq<Call>, c: Call)
    requires Run(calls) && Sound(c) && (calls != [] ==> c.from == calls[|calls| - 1].upTo)
    ensures Run(calls + [c])
  {
  }

  /** The numbers of the messages handed back by a run, in the order they were handed back. */
  ghost function Delivered(calls: seq<Call>): seq<int>
  {
    if calls == [] then [] else
      var c := calls[|calls| - 1];
      Delivered(calls[..|calls| - 1]) +
      seq(if c.returned > 0 then c.returned else 0, i => c.upTo - c.returned + i)
  }

  lemma {:induction false} SpansGrow(calls: seq<Call>)
    requires Run(calls) && calls != []
    ensures calls[0].from <= calls[|calls| - 1].from
  {
    if |calls| > 1 {
      SpansGrow(calls[..|calls| - 1]);
    }
  }

  /** Strictly increasing, inside [lo, hi). */
  ghost predicate Ascending(s: seq<int>, lo: int, hi: int)
  {
    && (forall i :: 0 <= i < |s| ==> lo <= s[i] < hi)
    && (forall i, j :: 0 <= i < j < |s| ==> s[i] < s[j])
  }

  /** No message is ever handed back twice, nor out of order, over any run of calls. */
  lemma {:induction false} DeliveryIncreases(calls: seq<Call>)
    requires Run(calls) && calls != []
    ensures Ascending(Delivered(calls), calls[0].from, calls[|calls| - 1].upTo)
  {
    var front, c := calls[..|calls| - 1], calls[|calls| - 1];
    if front == [] {
      assert Delivered(front) == [];
    } else {
      assert front[|front| - 1] == calls[|calls| - 2];
      DeliveryIncreases(front);
      SpansGrow(calls);
    }
    assert Ascending(Delivered(front), calls[0].from, c.from);
  }

  /** A message that a run skipped lies in the span of a call which did not say NOT_OVERWRITTEN. */
  lemma {:induction false} SkippedIsFlagged(calls: seq<Call>, m: int) returns (i: nat)
    requires Run(calls) && calls != [] && calls[0].from <= m < calls[|calls| - 1].upTo
    ensures i < |calls| && calls[i].from <= m < calls[i].upTo
    ensures m !in Delivered(calls) ==> calls[i].flag != NOT_OVERWRITTEN
  {
    var c, front := calls[|calls| - 1], calls[..|calls| - 1];
    if m >= c.from {
      i := |front|;
      if c.flag == NOT_OVERWRITTEN {
        assert Delivered(calls)[|Delivered(front)| + (m - c.from)] == m;
      }
    } else {
      assert front != [];
      i := SkippedIsFlagged(front, m);
      if m in Delivered(front) {
        var k :| 0 <= k < |Delivered(front)| && Delivered(front)[k] == m;
        assert Delivered(calls)[k] == m;
      }
    }
  }

  /** The flag of a call that had not been lapped before it began: `last` read earlier, `skip` stepped over. */
  predicate FlagUnlapped(flag: int, skip: int, last: nat, n: nat)
  {
    && n >= 2 && skip >= 0
    && flag == (if skip == 0 then NOT_OVERWRITTEN else CRemainder(NOT_OVERWRITTEN + skip, n))
    && (skip > 0 ==> (flag == Slot(last + skip, n) <==> 2 <= skip && Slot(last + 2, n) == 0))
  }

  /** The contract of one bulk read, of which no half was refused: `last` entries were read earlier. */
  ghost predicate WholeRead(board: Board, buffer: array<byte>, last: nat, count: nat, userbuffer: nat, nummsgs: int,
                            flag: int)
    requires board.entries > 0
    reads board, buffer
  {
    // how many: all that are new, or as many as surely survived the board's progress meanwhile
    && nummsgs == Min(Min(count - last, board.entries), board.entries - (board.count - count))
    // which: exactly the messages before the first count, in order, none torn
    && (nummsgs > 0 ==> Exactly(board, buffer, userbuffer, count - nummsgs, count))
    // after a whole lap, the flag names the slot of the first message returned
    && (count >= last + board.entries && 0 <= nummsgs <= count ==> flag == Slot(count - nummsgs, board.entries))
    // without one, it says so or is -2 plus the number skipped, which names that slot in one case only
    && (last < count < last + board.entries ==> FlagUnlapped(flag, count - last - nummsgs, last, board.entries))
    && (flag == NOT_OVERWRITTEN ==> nummsgs == count - last)
  }

  /**
   What such a read with one of its two requests refused leaves at the place of the other: `from` is the first
   message.
   */
  ghost predicate HalfRead(board: Board, buffer: array<byte>, lo: int, hi: int, from: nat)
    reads board, buffer
  {
    0 <= lo <= hi && 0 <= At(from, board.entrySize) && Captured(board, buffer, lo, hi, At(from, board.entrySize))
  }

  /** How many entries a read wants, and from which on. */
  function Wanted(last: nat, count: nat, n: nat): nat
    requires last < count
  {
    if count - last < n then count - last else n
  }

  /** What the read hands back if only its first, or only its second, DMA request is carried out. */
  ghost predicate FirstHalf(board: Board, buffer: array<byte>, first: nat, room: nat, count: nat, userbuffer: nat,
                            nummsgs: int)
    reads board, buffer
  {
    && nummsgs == Min(room, board.entries - (board.count - count)) && userbuffer == At(room - nummsgs, board.entrySize)
    && HalfRead(board, buffer, 0, At(room, board.entrySize), first)
  }

  twostate predicate SecondHalf(board: Board, buffer: array<byte>, first: nat, room: nat, count: nat, userbuffer: nat,
                                nummsgs: int)
    requires first <= count
    reads board, buffer
  {
    var e, want := board.entrySize, count - first;
    && nummsgs == Min(want - room, board.entries - (board.count - count)) && userbuffer == At(want - room - nummsgs, e)
    && 0 <= At(room, e) <= buffer.Length && buffer[..At(room, e)] == old(buffer[..])[..At(room, e)]
    && HalfRead(board, buffer, At(room, e), At(want, e), first + room)
  }

  /** Copies the stretches planned, and steps over what the board may have written over meanwhile. */
  method CopyAndSkip(dev: Device, board: Board, buffer: array<byte>, destAlign: nat, dmaWorks: (bool, bool),
                     start1: nat, size1: nat, start2: nat, size2: nat,
                     ghost last: nat, currentCount: nat, ghost first: nat, flag: int)
    returns (userbuffer: nat, nummsgs: int, overwritten: int)
    requires Ready(board, buffer) && size1 + size2 <= buffer.Length && 2 <= board.entrySize
    requires last < currentCount <= board.count && first == currentCount - Wanted(last, currentCount, board.entries)
    requires if currentCount - last < board.entries then flag == NOT_OVERWRITTEN
             else flag == Slot(currentCount, board.entries)
    requires var k := At(first, board.entrySize);
      && 0 <= k && InLap(board, start1, size1, k) && InLap(board, start2, size2, k + size1)
      && 0 < size1 && size1 + size2 == At(currentCount - first, board.entrySize)
    requires size2 > 0 ==> start2 != 0
    requires dev.isUNet ==> Even(size1) && Even(size2)
    requires var room := Room(first, board.entries);
      if currentCount - first > room
        then size1 == At(room, board.entrySize) && size2 == At(currentCount - first - room, board.entrySize) > 0
      else size2 == 0
    modifies buffer, board, board.dpram
    ensures Ready(board, buffer) && Grown(board) && nummsgs <= currentCount - first
    ensures !HalfRefused(dev, size2, dmaWorks) ==>
              WholeRead(board, buffer, last, currentCount, userbuffer, nummsgs, overwritten)
    ensures HalfRefused(dev, size2, dmaWorks) && dmaWorks.0 ==>
              FirstHalf(board, buffer, first, Room(first, board.entries), currentCount, userbuffer, nummsgs)
    ensures HalfRefused(dev, size2, dmaWorks) && dmaWorks.1 ==>
              SecondHalf(board, buffer, first, Room(first, board.entries), currentCount, userbuffer, nummsgs)
  {
    hide Faithful, Mirrors, Position, InLap, CRemainder, Even, At, Slot, Exactly;
    ghost var e, want, room := board.entrySize, currentCount - first, Room(first, board.entries);
    ghost var whole := !HalfRefused(dev, size2, dmaWorks);
    var totalBytesRead :=
      CopyBoth(dev, board, buffer, destAlign, dmaWorks, start1, size1, start2, size2, At(first, e));
    WholeEntries(if whole then want else if dmaWorks.0 then room else want - room, e);
    var entriesRead := totalBytesRead / board.entrySize;
    AtIsNatural(room, e);
    AtIsNatural(entriesRead, e);
    AtIsNatural(currentCount - entriesRead, e);
    AtAdds(first, room, e);
    ghost var lo := if dmaWorks.0 then 0 else size1;
    ghost var hi := if dmaWorks.0 then size1 else size1 + size2;
    ghost var got, log := if whole then [] else buffer[lo..hi], board.log;
    var skip;
    skip, nummsgs, overwritten := SkipLapped(board, buffer, currentCount, entriesRead, flag, whole);
    userbuffer := At(skip, board.entrySize);
    if !whole { FaithfulAsBoardGrows(got, At(first, e) + lo, log, board.log, board.ringSize); }
  }

  /**
   Read_RT_Block_Px, for a reader that has read up to `last`.  If only the second of two DMA requests is
   refused, the messages before the wrap are handed back, those that were lapped may be torn, and all after
   the wrap are missing.  If only the first is, as many entries as lie after the wrap are handed back from
   the buffer's start, where what was there before still is as far as the first request would have reached.
   */
  method ReadOnce(dev: Device, board: Board, buffer: array<byte>, destAlign: nat, dmaWorks: (bool, bool),
                  bufferStart: nat, bufferEnd: nat, last: nat, flag: int)
    returns (currentCount: nat, userbuffer: nat, nummsgs: int, overwritten: int)
    requires Ready(board, buffer) && last <= board.count
    requires 0 < bufferStart == board.ringStart && bufferEnd == bufferStart + board.ringSize <= 0x10000
    requires board.ringSize <= buffer.Length
    requires 2 <= board.entrySize && (dev.isUNet ==> Even(board.entrySize))
    modifies buffer, board, board.dpram
    ensures Ready(board, buffer) && Grown(board)
    ensures old(board.count) <= currentCount <= board.count
    ensures currentCount == last ==> nummsgs == 0 && overwritten == flag
    ensures currentCount > last ==>
      var want := Wanted(last, currentCount, board.entries);
      var first: nat := currentCount - want;
      var room := Room(first, board.entries);
      && nummsgs <= want
      && if want <= room || !HalfRefused(dev, want - room, dmaWorks) then
           WholeRead(board, buffer, last, currentCount, userbuffer, nummsgs, overwritten)
         else if dmaWorks.0 then FirstHalf(board, buffer, first, room, currentCount, userbuffer, nummsgs)
         else SecondHalf(board, buffer, first, room, currentCount, userbuffer, nummsgs)
  {
    hide Faithful, Mirrors, Position, InLap, CRemainder, Even, At, Slot, Exactly, WholeRead, FirstHalf;
    userbuffer, nummsgs, overwritten := 0, 0, flag;
    var e := board.entrySize;
    RunInRing(0, 0, e, board.entries);
    WholeEntries(board.entries, e);
    var entriesInRcvBuffer := (bufferEnd - bufferStart) / e;
    board.Interfere();
    currentCount := board.count;
    var entriesToRead: nat;
    if currentCount > last && currentCount - last < entriesInRcvBuffer {
      overwritten := NOT_OVERWRITTEN;
      entriesToRead := currentCount - last;
    } else if currentCount == last {
      return;
    } else {
      overwritten := Slot(currentCount, entriesInRcvBuffer);
      entriesToRead := entriesInRcvBuffer;
    }
    ghost var first: nat := currentCount - entriesToRead;
    RunInRing(first, entriesToRead, e, board.entries);
    var start1, size1, start2, size2 :=
      Stretches(board, bufferStart, bufferEnd, overwritten, last, currentCount, entriesToRead, At(first, e));
    assert buffer[..] == old(buffer[..]);
    userbuffer, nummsgs, overwritten :=
      CopyAndSkip(dev, board, buffer, destAlign, dmaWorks, start1, size1, start2, size2, last, currentCount, first,
                  overwritten);
  }

  class RtReader {
    const dev: Device
    var lastRTstackCountRead: nat
    ghost var calls: seq<Call>

    ghost predicate Valid()
      reads this
    {
      Run(calls) && lastRTstackCountRead == if calls == [] then 0 else calls[|calls| - 1].upTo
    }

    constructor (d: Device)
      ensures Valid() && calls == []
    {
      dev, lastRTstackCountRead, calls := d, 0, [];
    }

    /**
     One bulk read.  The returned entries sit at buffer[userbuffer..]; they are the messages just
     before the count that was read first, each exactly as the board wrote it.
     */
    method ReadBlock(board: Board, buffer: array<byte>, destAlign: nat, dmaWorks: bool,
                     bufferStart: nat, bufferEnd: nat, flag: int)
      returns (userbuffer: nat, nummsgs: int, overwritten: int)
      requires Valid() && Ready(board, buffer) && lastRTstackCountRead <= board.count
      requires 0 < bufferStart == board.ringStart && bufferEnd == bufferStart + board.ringSize <= 0x10000
      requires board.ringSize <= buffer.Length
      requires 2 <= board.entrySize && (dev.isUNet ==> Even(board.entrySize))
      modifies this`lastRTstackCountRead, this`calls, buffer, board, board.dpram
      ensures Valid() && Ready(board, buffer) && Grown(board)
      ensures old(board.count) <= lastRTstackCountRead <= board.count
      // nothing new: nothing is returned and the caller's flag is left alone
      ensures lastRTstackCountRead == old(lastRTstackCountRead) ==>
                nummsgs == 0 && overwritten == flag && calls == old(calls)
      ensures lastRTstackCountRead > old(lastRTstackCountRead) ==>
                calls == old(calls) + [Call(old(lastRTstackCountRead), lastRTstackCountRead, nummsgs, overwritten)]
      // how many: all that are new, or as many as surely survived the board's progress meanwhile
      ensures lastRTstackCountRead > old(lastRTstackCountRead) ==>
                nummsgs == Min(Min(lastRTstackCountRead - old(lastRTstackCountRead), board.entries),
                               board.entries - (board.count - lastRTstackCountRead))
      // which: exactly the messages before the first count, in order, none torn
      ensures nummsgs > 0 ==>
                Exactly(board, buffer, userbuffer, lastRTstackCountRead - nummsgs, lastRTstackCountRead)
      // after a whole lap, the flag names the slot of the first message returned
      ensures lastRTstackCountRead >= old(lastRTstackCountRead) + board.entries && nummsgs >= 0 ==>
                overwritten == Slot(lastRTstackCountRead - nummsgs, board.entries)
      // without one, it says so or is -2 plus the number skipped, which names that slot in one case only
      ensures old(lastRTstackCountRead) < lastRTstackCountRead < old(lastRTstackCountRead) + board.entries ==>
                FlagUnlapped(overwritten, lastRTstackCountRead - old(lastRTstackCountRead) - nummsgs,
                             old(lastRTstackCountRead), board.entries)
    {
      hide Run, Exactly, Slot, FlagUnlapped, Even, Mirrors;
      ghost var last := lastRTstackCountRead;
      var currentCount;
      currentCount, userbuffer, nummsgs, overwritten :=
        ReadOnce(dev, board, buffer, destAlign, (dmaWorks, dmaWorks), bufferStart, bufferEnd, lastRTstackCountRead,
                 flag);
      if currentCount == lastRTstackCountRead { return; }
      lastRTstackCountRead := currentCount;
      RunExtends(calls, Call(last, currentCount, nummsgs, overwritten));
      calls := calls + [Call(last, currentCount, nummsgs, overwritten)];
    }
  }
}
