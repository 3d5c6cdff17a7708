/**
 Unaligned transfers between a buffer and a module's memory: a head up to the next 8-byte
 boundary, an 8-byte-aligned body, and a tail, moved by double-word, word and DMA accesses.
 Offsets are taken from a module whose start is 8-byte aligned on the card.
 */
module SplitDma {
  import opened Common

  datatype Status = Done | InvalidParameter | TransferFailed

  /** What one request depends on besides its addresses. */
  datatype Request = Request(
    afdx: bool,             // the only module kind that takes lengths that are not multiples of 8
    dmaWorks: bool,         // whether the driver moves all bytes of the body
    uninitialised: nat)     // what the byte count variable holds before any transfer sets it

  /** Bytes before the next 8-byte boundary. */
  function Head(off: nat): nat { if off % 8 == 0 then 0 else 8 - off % 8 }

  function Tail(off: nat, length: nat): nat
    requires Head(off) <= length
  {
    (length - Head(off)) % 8
  }

  /** The double word that holds a byte. */
  function DwordAt(off: nat): nat { off / 4 * 4 }

  /** How many of a head's bytes come from the first double word, when it is not wholly used. */
  function PartOf(head: nat): nat { if head >= 4 then head - 4 else head }

  /** Where the double words of the head lie. */
  lemma HeadWords(off: nat, size: nat)
    requires off % 8 != 0 && off < size && size % 8 == 0
    ensures Head(off) == 8 - off % 8 && 1 <= Head(off) <= 7 && off + Head(off) <= size
    ensures var d, part := DwordAt(off), PartOf(Head(off));
      && (if part > 0 then d + 4 == off + part else d == off) && d + 4 <= size
      && (Head(off) >= 4 && part > 0 ==> d + 8 <= size)
  {
    var q, r := off / 8, off % 8;
    assert off == 8 * q + r && 8 * q + 8 <= size by {
      assert size == 8 * (size / 8) && q < size / 8;
    }
    assert off / 4 == 2 * q + r / 4;
  }

  /** The body starts and ends on 8-byte boundaries, and a whole unit of memory follows it. */
  lemma BodyIsAligned(off: nat, length: nat, size: nat)
    requires Head(off) <= length && off + length <= size && size % 8 == 0
    ensures (off + Head(off)) % 8 == 0
    ensures var end := off + length - Tail(off, length);
            off + Head(off) <= end && end % 8 == 0 && (0 < Tail(off, length) ==> end + 8 <= size)
  {
    var m := off + Head(off);
    assert m % 8 == 0;
    var units := (length - Head(off)) / 8;
    assert off + length - Tail(off, length) == m + 8 * units;
  }

  /** A partial copy: the first `done` bytes of `goal` are in place from `at` on, nothing else moved. */
  ghost predicate Copied(now: seq<byte>, s: seq<byte>, at: nat, goal: seq<byte>, done: nat)
  {
    at + |goal| <= |s| && done <= |goal| && now == Splice(s, at, goal[..done])
  }

  lemma NothingCopied(s: seq<byte>, at: nat, goal: seq<byte>)
    requires at + |goal| <= |s|
    ensures Copied(s, s, at, goal, 0)
  {
  }

  /** Storing the next bytes of the goal continues the copy. */
  lemma CopyContinues(now: seq<byte>, s: seq<byte>, at: nat, goal: seq<byte>, done: nat, data: seq<byte>)
    requires Copied(now, s, at, goal, done) && done + |data| <= |goal| && data == goal[done..done + |data|]
    ensures |now| == |s| && Copied(Splice(now, at + done, data), s, at, goal, done + |data|)
  {
    assert goal[..done] + data == goal[..done + |data|];
  }

  lemma CopyComplete(now: seq<byte>, s: seq<byte>, at: nat, goal: seq<byte>)
    requires Copied(now, s, at, goal, |goal|)
    ensures now == Splice(s, at, goal)
  {
    assert goal[..|goal|] == goal;
  }

  /** One access: as many bytes as `data` has, stored at once; they are the next bytes of the goal. */
  method Store(mem: array<byte>, data: seq<byte>, ghost s: seq<byte>, at: nat, ghost goal: seq<byte>, done: nat)
    requires Copied(mem[..], s, at, goal, done)
    requires done + |data| <= |goal| && forall i :: 0 <= i < |data| ==> data[i] == goal[done + i]
    modifies mem
    ensures Copied(mem[..], s, at, goal, done + |data|)
  {
    ghost var now := mem[..];
    assert data == goal[done..done + |data|];
    CopyContinues(now, s, at, goal, done, data);
    forall i | 0 <= i < |data| {
      mem[at + done + i] := data[i];
    }
    assert mem[..] == Splice(now, at + done, data);
  }

  // ---- Reading ----

  /** The bytes up to the next 8-byte boundary, by one or two double-word accesses. */
  method ReadHead(dpram: array<byte>, off: nat, buffer: array<byte>, ghost s: seq<byte>, ghost goal: seq<byte>)
    returns (p: nat)
    requires off % 8 != 0 && dpram.Length % 8 == 0 && buffer != dpram
    requires off + |goal| <= dpram.Length && goal == dpram[off..off + |goal|] && Head(off) <= |goal|
    requires Copied(buffer[..], s, 0, goal, 0)
    modifies buffer
    ensures p == Head(off) && Copied(buffer[..], s, 0, goal, p)
  {
    HeadWords(off, dpram.Length);
    hide Copied, DwordAt, Head;
    var bytesForRead := 8 - off % 8;
    var dword := DwordAt(off);
    var doFullWord := bytesForRead >= 4;
    if doFullWord {
      bytesForRead := bytesForRead - 4;
    }
    var localDword := dpram[dword..dword + 4];
    for i := 0 to bytesForRead
      invariant Copied(buffer[..], s, 0, goal, i)
    {
      Store(buffer, [localDword[i + (4 - bytesForRead)]], s, 0, goal, i);
    }
    p := bytesForRead;
    if doFullWord {
      if bytesForRead > 0 {
        dword := dword + 4;
      }
      Store(buffer, dpram[dword..dword + 4], s, 0, goal, p);
      p := p + 4;
    }
  }

  /** An aligned body of whole 8-byte units; nothing is transferred when it is empty. */
  method ReadBody(dpram: array<byte>, off: nat, buffer: array<byte>, p: nat, length: nat, req: Request,
                  ghost s: seq<byte>, ghost goal: seq<byte>)
    returns (moved: nat)
    requires length % 8 == 0 && buffer != dpram && p <= off && p + length <= |goal|
    requires off - p + |goal| <= dpram.Length && goal == dpram[off - p..off - p + |goal|]
    requires Copied(buffer[..], s, 0, goal, p)
    modifies buffer
    ensures length == 0 ==> moved == req.uninitialised
    ensures 0 < length ==> (moved == length <==> length < 16 || req.dmaWorks)
    ensures length == 0 || moved == length ==> Copied(buffer[..], s, 0, goal, p + length)
  {
    hide Copied;
    moved := req.uninitialised;
    if length > 0 {
      if length < 16 {
        var unit := if req.afdx then 4 else 2;
        var done := 0;
        while done < length
          invariant done <= length && done % unit == 0 && Copied(buffer[..], s, 0, goal, p + done)
        {
          Store(buffer, dpram[off + done..off + done + unit], s, 0, goal, p + done);
          done := done + unit;
        }
        moved := length;
      } else if req.dmaWorks {
        Store(buffer, dpram[off..off + length], s, 0, goal, p);
        moved := length;
      } else {
        moved := 0;
      }
    }
  }

  /** The bytes after the body, out of two double words. */
  method ReadTail(dpram: array<byte>, off: nat, buffer: array<byte>, p: nat, length: nat,
                  ghost s: seq<byte>, ghost goal: seq<byte>)
    requires 0 < length < 8 && off + 8 <= dpram.Length && buffer != dpram && p <= off && p + length == |goal|
    requires goal == dpram[off - p..off - p + |goal|]
    requires Copied(buffer[..], s, 0, goal, p)
    modifies buffer
    ensures Copied(buffer[..], s, 0, goal, |goal|)
  {
    hide Copied;
    var left, at, dword := length, p, off;
    for i := 0 to 2
      invariant left == (if i == 0 then length else if i == 1 && length > 4 then length - 4 else 0)
      invariant at == p + length - left && dword == off + 4 * i
      invariant Copied(buffer[..], s, 0, goal, at)
    {
      var tmp := dpram[dword..dword + 4];
      var byteInWord := if left > 4 then 4 else left;
      assert byteInWord > 0 ==> at - p == dword - off;
      assert forall k :: 0 <= k < byteInWord ==> tmp[k] == dpram[dword + k] == goal[at + k];
      Store(buffer, tmp[..byteInWord], s, 0, goal, at);
      left, at, dword := left - byteInWord, at + byteInWord, dword + 4;
    }
  }

  /** How far the head reaches, at the least: past the end of a request shorter than itself. */
  function Reach(off: nat, length: nat): nat { if length < Head(off) then Head(off) else length }

  lemma ReachFits(off: nat, length: nat, size: nat)
    requires off + length <= size && size % 8 == 0
    ensures off + Reach(off, length) <= size
  {
    if length < Head(off) { HeadWords(off, size); }
  }

  /**
   A whole read equals a plain copy, for every offset and length.  When fewer than 8 bytes are
   left after the head, success hangs on a byte count that nothing has set.  A request shorter than
   the head fails, after the whole head has been copied.
   */
  method PerformDMARead(dpram: array<byte>, buffer: array<byte>, length: nat, off: nat, req: Request)
    returns (status: Status)
    requires off + length <= dpram.Length && dpram.Length % 8 == 0
    requires Reach(off, length) <= buffer.Length && buffer != dpram
    modifies buffer
    ensures status == InvalidParameter <==> length % 8 > 0 && !req.afdx
    ensures status == InvalidParameter ==> buffer[..] == old(buffer[..])
    ensures status == Done ==> buffer[..] == Splice(old(buffer[..]), 0, dpram[off..off + length])
    ensures status != InvalidParameter && length - Head(off) >= 8 ==>
              (status == Done <==> length - Head(off) < 16 || req.dmaWorks)
    ensures status != InvalidParameter && 0 <= length - Head(off) < 8 ==> (status == Done <==> req.uninitialised == 0)
    ensures status != InvalidParameter && length < Head(off) ==>
              && status == TransferFailed && off + Head(off) <= dpram.Length
              && buffer[..] == Splice(old(buffer[..]), 0, dpram[off..off + Head(off)])
  {
    hide Copied, Splice;
    if length % 8 > 0 && !req.afdx {
      return InvalidParameter;
    }
    ReachFits(off, length, dpram.Length);
    ghost var s, goal := buffer[..], dpram[off..off + Reach(off, length)];
    NothingCopied(s, 0, goal);
    var p, modOffset, rest: int := 0, off, length;
    if off % 8 != 0 {
      p := ReadHead(dpram, off, buffer, s, goal);
      rest, modOffset := rest - (8 - off % 8), modOffset + (8 - modOffset % 8);
    }
    assert p == Head(off) && modOffset == off + p && rest == length - p;
    if rest < 0 {
      // the unsigned length has wrapped, and the driver refuses a transfer that long
      CopyComplete(buffer[..], s, 0, goal);
      return TransferFailed;
    }
    BodyIsAligned(off, length, dpram.Length);
    status := ReadRest(dpram, modOffset, buffer, p, rest, req, s, goal);
  }

  /** The body and the tail, once the head is read. */
  method ReadRest(dpram: array<byte>, modOffset: nat, buffer: array<byte>, p: nat, length: nat, req: Request,
                  ghost s: seq<byte>, ghost goal: seq<byte>)
    returns (status: Status)
    requires p <= modOffset && modOffset + length <= dpram.Length && buffer != dpram
    requires length % 8 > 0 ==> modOffset + (length - length % 8) + 8 <= dpram.Length
    requires |goal| == p + length && goal == dpram[modOffset - p..modOffset + length]
    requires Copied(buffer[..], s, 0, goal, p)
    modifies buffer
    ensures status != InvalidParameter
    ensures length >= 8 ==> (status == Done <==> length < 16 || req.dmaWorks)
    ensures length < 8 ==> (status == Done <==> req.uninitialised == 0)
    ensures status == Done ==> |goal| <= |s| && buffer[..] == Splice(s, 0, goal)
  {
    hide Splice;
    var leftover := length % 8;
    var rest := length - leftover;
    var moved := ReadBody(dpram, modOffset, buffer, p, rest, req, s, goal);
    if moved != rest {
      return TransferFailed;
    }
    if leftover > 0 {
      ReadTail(dpram, modOffset + rest, buffer, p + rest, leftover, s, goal);
    }
    CopyComplete(buffer[..], s, 0, goal);
    status := Done;
  }

  // ---- Writing ----

  /** One access that stores what it is given, wherever that belongs. */
  method StoreAt(mem: array<byte>, at: nat, data: seq<byte>)
    requires at + |data| <= mem.Length
    modifies mem
    ensures mem[..] == Splice(old(mem[..]), at, data)
  {
    forall i | 0 <= i < |data| {
      mem[at + i] := data[i];
    }
  }

  /** The first `n` bytes of a double word replaced: the rest is written back as it was read. */
  lemma PartialWord(s: seq<byte>, at: nat, x: seq<byte>)
    requires |x| <= 4 && at + 4 <= |s|
    ensures Splice(s, at, x + s[at + |x|..at + 4]) == Splice(s, at, x)
  {
  }

  /** The last `b` bytes of a double word replaced by the first bytes of the goal. */
  lemma WordEndIsHead(s: seq<byte>, dword: nat, off: nat, goal: seq<byte>, b: nat)
    requires b < 4 && off == dword + (4 - b) % 4 && dword + 4 <= |s| && off + |goal| <= |s| && b <= |goal|
    ensures Copied(Splice(s, dword, s[dword..dword + 4 - b] + goal[..b]), s, off, goal, b)
  {
    var now := Splice(s, dword, s[dword..dword + 4 - b] + goal[..b]);
    if b == 0 {
      assert now == s == Splice(s, off, goal[..b]);
    } else {
      assert now == Splice(s, off, goal[..b]);
    }
  }

  /** The head: a double word read, patched and written back, then perhaps a whole one. */
  method WriteHead(dpram: array<byte>, off: nat, buffer: array<byte>, ghost goal: seq<byte>) returns (p: nat)
    requires off % 8 != 0 && dpram.Length % 8 == 0 && buffer != dpram
    requires off + |goal| <= dpram.Length && |goal| <= buffer.Length && goal == buffer[..|goal|]
    requires Head(off) <= |goal|
    modifies dpram
    ensures p == Head(off) && Copied(dpram[..], old(dpram[..]), off, goal, p)
  {
    hide Copied, Splice;
    HeadWords(off, dpram.Length);
    ghost var s := dpram[..];
    var bytesForWrite := 8 - off % 8;
    var dword := DwordAt(off);
    var doFullWord := bytesForWrite >= 4;
    if doFullWord {
      bytesForWrite := bytesForWrite - 4;
    }
    var localDword := dpram[dword..dword + 4];
    for i := 0 to bytesForWrite
      invariant localDword == s[dword..dword + 4 - bytesForWrite] + goal[..i]
                            + s[dword + 4 - bytesForWrite + i..dword + 4]
    {
      localDword := localDword[i + (4 - bytesForWrite) := buffer[i]];
    }
    p := bytesForWrite;
    assert localDword == s[dword..dword + 4 - p] + goal[..p];
    StoreAt(dpram, dword, localDword);
    WordEndIsHead(s, dword, off, goal, p);
    if doFullWord {
      Store(dpram, buffer[p..p + 4], s, off, goal, p);
      p := p + 4;
    }
  }

  /** The aligned body, by words, double words or DMA. */
  method WriteBody(dpram: array<byte>, off: nat, buffer: array<byte>, p: nat, length: nat, req: Request,
                   ghost s: seq<byte>, start: nat, ghost goal: seq<byte>)
    returns (moved: nat)
    requires length % 8 == 0 && buffer != dpram && start + p == off && p + length <= |goal|
    requires |goal| <= buffer.Length && goal == buffer[..|goal|] && Copied(dpram[..], s, start, goal, p)
    modifies dpram
    ensures length == 0 ==> moved == req.uninitialised
    ensures 0 < length ==> (moved == length <==> length < 16 || req.dmaWorks)
    ensures length == 0 || moved == length ==> Copied(dpram[..], s, start, goal, p + length)
  {
    hide Copied;
    moved := req.uninitialised;
    if length > 0 {
      if length < 16 {
        var unit := if req.afdx then 4 else 2;
        var done := 0;
        while done < length
          invariant done <= length && done % unit == 0 && Copied(dpram[..], s, start, goal, p + done)
        {
          Store(dpram, buffer[p + done..p + done + unit], s, start, goal, p + done);
          done := done + unit;
        }
        moved := length;
      } else if req.dmaWorks {
        Store(dpram, buffer[p..p + length], s, start, goal, p);
        moved := length;
      } else {
        moved := 0;
      }
    }
  }

  /**
   The tail: two double words patched and written back.  The count of bytes left is not reduced
   when it is 4 or less, so that a short tail is followed by as many bytes again, taken from
   beyond the data and stored in the next double word.
   */
  method WriteTail(dpram: array<byte>, off: nat, buffer: array<byte>, p: nat, length: nat)
    requires 0 < length < 8 && off + 8 <= dpram.Length && buffer != dpram
    requires p + length + (if length <= 4 then length else 0) <= buffer.Length
    modifies dpram
    ensures length > 4 ==> dpram[..] == Splice(old(dpram[..]), off, buffer[p..p + length])
    ensures length <= 4 ==>
              dpram[..] == Splice(Splice(old(dpram[..]), off, buffer[p..p + length]),
                                  off + 4, buffer[p + length..p + 2 * length])
  {
    hide Splice;
    ghost var s := dpram[..];
    var left, first := length, if length > 4 then 4 else length;
    if left > 4 {
      left := left - 4;
    }
    PatchWord(dpram, off, buffer, p, first);
    ghost var s1 := dpram[..];
    PatchWord(dpram, off + 4, buffer, p + first, left);
    if length > 4 {
      SpliceTwice(s, off, buffer[p..p + 4], buffer[p + 4..p + length]);
      assert buffer[p..p + 4] + buffer[p + 4..p + length] == buffer[p..p + length];
    }
  }

  /** Read a double word, replace its first n bytes, write it back. */
  method PatchWord(dpram: array<byte>, dword: nat, buffer: array<byte>, p: nat, n: nat)
    requires n <= 4 && dword + 4 <= dpram.Length && p + n <= buffer.Length && buffer != dpram
    modifies dpram
    ensures dpram[..] == Splice(old(dpram[..]), dword, buffer[p..p + n])
  {
    hide Splice;
    ghost var s := dpram[..];
    var tmp := dpram[dword..dword + 4];
    for i := 0 to n
      invariant |tmp| == 4
      invariant forall j :: 0 <= j < 4 ==> tmp[j] == if j < i then buffer[p + j] else dpram[dword + j]
    {
      tmp := tmp[i := buffer[p + i]];
    }
    assert tmp == buffer[p..p + n] + s[dword + n..dword + 4];
    PartialWord(s, dword, buffer[p..p + n]);
    StoreAt(dpram, dword, tmp);
  }

  lemma SpliceTwice(s: seq<byte>, at: nat, x: seq<byte>, y: seq<byte>)
    requires at + |x| + |y| <= |s|
    ensures |Splice(s, at, x)| == |s|
    ensures Splice(Splice(s, at, x), at + |x|, y) == Splice(s, at, x + y)
  {
  }

  /** How much of the buffer a write takes: a short tail is read twice, and the head is taken whole. */
  function WriteReach(off: nat, length: nat): nat
  {
    if length < Head(off) then Head(off)
    else length + if Tail(off, length) <= 4 then Tail(off, length) else 0
  }

  /** The memory after a completed write request. */
  function Written(s: seq<byte>, off: nat, buffer: seq<byte>, length: nat): seq<byte>
    requires off + length <= |s| && |s| % 8 == 0 && Head(off) <= length
    requires WriteReach(off, length) <= |buffer|
  {
    BodyIsAligned(off, length, |s|);
    var t, plain := Tail(off, length), Splice(s, off, buffer[..length]);
    WithTail(plain, off + length, t, if t <= 4 then buffer[length..length + t] else [])
  }

  /** A short tail, of t bytes up to `end`, puts what follows the data into the next double word. */
  function WithTail(plain: seq<byte>, end: nat, t: nat, following: seq<byte>): seq<byte>
    requires 0 < t <= 4 ==> t <= end && end - t + 4 + |following| <= |plain|
  {
    if 0 < t <= 4 then Splice(plain, end - t + 4, following) else plain
  }

  /** A whole write changes exactly what `Written` says; the request is refused, or too short, as for reads. */
  method PerformDMAWrite(dpram: array<byte>, buffer: array<byte>, length: nat, off: nat, req: Request)
    returns (status: Status)
    requires off + length <= dpram.Length && dpram.Length % 8 == 0 && buffer != dpram
    requires WriteReach(off, length) <= buffer.Length
    modifies dpram
    ensures status == InvalidParameter <==> length % 8 > 0 && !req.afdx
    ensures status == InvalidParameter ==> dpram[..] == old(dpram[..])
    ensures status == Done ==> Head(off) <= length && dpram[..] == Written(old(dpram[..]), off, buffer[..], length)
    ensures status != InvalidParameter && length - Head(off) >= 8 ==>
              (status == Done <==> length - Head(off) < 16 || req.dmaWorks)
    ensures status != InvalidParameter && 0 <= length - Head(off) < 8 ==> (status == Done <==> req.uninitialised == 0)
    ensures status != InvalidParameter && length < Head(off) ==>
              && status == TransferFailed && off + Head(off) <= dpram.Length
              && dpram[..] == Splice(old(dpram[..]), off, buffer[..Head(off)])
  {
    hide Copied, Splice;
    if length % 8 > 0 && !req.afdx {
      return InvalidParameter;
    }
    ReachFits(off, length, dpram.Length);
    ghost var s, goal := dpram[..], buffer[..Reach(off, length)];
    NothingCopied(s, off, goal);
    var p, modOffset, rest: int := 0, off, length;
    if off % 8 != 0 {
      p := WriteHead(dpram, off, buffer, goal);
      rest, modOffset := rest - (8 - off % 8), modOffset + (8 - modOffset % 8);
    }
    assert p == Head(off) && modOffset == off + p && rest == length - p;
    if rest < 0 {
      // as for reads
      CopyComplete(dpram[..], s, off, goal);
      return TransferFailed;
    }
    BodyIsAligned(off, length, dpram.Length);
    status := WriteRest(dpram, modOffset, buffer, p, rest, req, s, off, goal);
    assert buffer[..][..length] == goal;
  }

  /** The body and the tail, once the head is written. */
  method WriteRest(dpram: array<byte>, modOffset: nat, buffer: array<byte>, p: nat, length: nat, req: Request,
                   ghost s: seq<byte>, off: nat, ghost goal: seq<byte>)
    returns (status: Status)
    requires modOffset == off + p && modOffset + length <= dpram.Length && buffer != dpram && dpram.Length == |s|
    requires (length % 8 > 0 ==> modOffset + (length - length % 8) + 8 <= |s|) && |goal| == p + length
    requires p + length + (if length % 8 <= 4 then length % 8 else 0) <= buffer.Length && goal == buffer[..p + length]
    requires Copied(dpram[..], s, off, goal, p)
    modifies dpram
    ensures status != InvalidParameter
    ensures length >= 8 ==> (status == Done <==> length < 16 || req.dmaWorks)
    ensures length < 8 ==> (status == Done <==> req.uninitialised == 0)
    ensures status == Done ==> off + |goal| <= |s| && |Splice(s, off, goal)| == |s|
    ensures status == Done ==>
              dpram[..] == WithTail(Splice(s, off, goal), modOffset + length, length % 8,
                                    if length % 8 <= 4 then buffer[p + length..p + length + length % 8] else [])
  {
    hide Copied, Splice;
    var leftover := length % 8;
    var rest := length - leftover;
    var moved := WriteBody(dpram, modOffset, buffer, p, rest, req, s, off, goal);
    if moved != rest { return TransferFailed; }
    ghost var now := dpram[..];
    if leftover > 0 {
      WriteTail(dpram, modOffset + rest, buffer, p + rest, leftover);
      TailCompletes(now, s, off, goal, buffer[p + rest..p + rest + leftover]);
    } else {
      CopyComplete(now, s, off, goal);
    }
    SpliceKeepsSize(s, off, goal);
    return Done;
  }

  lemma SpliceKeepsSize(s: seq<byte>, at: nat, goal: seq<byte>)
    requires at + |goal| <= |s|
    ensures |Splice(s, at, goal)| == |s|
  {
  }

  lemma TailCompletes(now: seq<byte>, s: seq<byte>, at: nat, goal: seq<byte>, data: seq<byte>)
    requires |data| <= |goal| && Copied(now, s, at, goal, |goal| - |data|) && data == goal[|goal| - |data|..]
    ensures |now| == |s| && Splice(now, at + |goal| - |data|, data) == Splice(s, at, goal)
  {
    CopyContinues(now, s, at, goal, |goal| - |data|, data);
    CopyComplete(Splice(now, at + |goal| - |data|, data), s, at, goal);
  }

  /**
   A write changes exactly the requested range if there is no tail or one of 5 to 7 bytes.  With
   a shorter tail it does so only when the bytes that follow the data in the buffer happen to
   equal those of the next double word of memory.
   */
  lemma WriteIsPlainWhen(s: seq<byte>, off: nat, buffer: seq<byte>, length: nat)
    requires off + length <= |s| && |s| % 8 == 0 && Head(off) <= length
    requires WriteReach(off, length) <= |buffer|
    ensures var t, end := Tail(off, length), off + length - Tail(off, length);
            && (0 < t ==> end + 8 <= |s|)
            && (Written(s, off, buffer, length) == Splice(s, off, buffer[..length]) <==>
                  t == 0 || t > 4 || buffer[length..length + t] == s[end + 4..end + 4 + t])
  {
    BodyIsAligned(off, length, |s|);
    var t, plain := Tail(off, length), Splice(s, off, buffer[..length]);
    var end := off + length - t;
    if 0 < t <= 4 {
      assert Splice(plain, end + 4, buffer[length..length + t])[end + 4..end + 4 + t] == buffer[length..length + t];
      assert plain[end + 4..end + 4 + t] == s[end + 4..end + 4 + t];
      if buffer[length..length + t] == s[end + 4..end + 4 + t] {
        assert Splice(plain, end + 4, plain[end + 4..end + 4 + t]) == plain;
      }
    }
  }

  /** For every short tail there are data that spoil memory outside the range. */
  lemma ShortTailSpoils(off: nat, length: nat, size: nat) returns (s: seq<byte>, buffer: seq<byte>)
    requires off + length <= size && size % 8 == 0 && Head(off) <= length && 0 < Tail(off, length) <= 4
    ensures |s| == size && |buffer| == length + Tail(off, length)
    ensures Written(s, off, buffer, length) != Splice(s, off, buffer[..length])
  {
    s, buffer := seq(size, _ => 0), seq(length + Tail(off, length), _ => 1);
    WriteIsPlainWhen(s, off, buffer, length);
    assert buffer[length] != s[off + length - Tail(off, length) + 4];
    assert buffer[length..length + Tail(off, length)][0] == buffer[length];
  }

  /** The requested range holds the data after any completed write. */
  lemma WrittenHoldsData(s: seq<byte>, off: nat, buffer: seq<byte>, length: nat)
    requires off + length <= |s| && |s| % 8 == 0 && Head(off) <= length
    requires WriteReach(off, length) <= |buffer|
    ensures |Written(s, off, buffer, length)| == |s|
    ensures Written(s, off, buffer, length)[off..off + length] == buffer[..length]
  {
    BodyIsAligned(off, length, |s|);
    assert Splice(s, off, buffer[..length])[off..off + length] == buffer[..length];
  }

  lemma SpliceAtStart(s: seq<byte>, data: seq<byte>)
    requires |data| <= |s|
    ensures |Splice(s, 0, data)| == |s| && Splice(s, 0, data)[..|data|] == data
  {
  }

  /** Writing and reading the same range back gives the data, for every tail, short or long. */
  method WriteThenRead(dpram: array<byte>, data: array<byte>, back: array<byte>, length: nat, off: nat, req: Request)
    returns (ok: bool)
    requires off + length <= dpram.Length && dpram.Length % 8 == 0
    requires data != dpram && back != dpram && back != data
    requires WriteReach(off, length) <= data.Length && Reach(off, length) <= back.Length
    modifies dpram, back
    ensures length - Head(off) >= 8 && req.dmaWorks && (length % 8 == 0 || req.afdx) ==> ok
    ensures ok ==> back[..length] == data[..length]
  {
    hide Splice, Written;
    ok := false;
    ghost var s, t := dpram[..], back[..];
    var w := PerformDMAWrite(dpram, data, length, off, req);
    if w == Done {
      WrittenHoldsData(s, off, data[..], length);
      var r := PerformDMARead(dpram, back, length, off, req);
      if r == Done {
        SpliceAtStart(t, dpram[off..off + length]);
        assert back[..length] == back[..][..length];
        assert data[..length] == data[..][..length];
        assert dpram[off..off + length] == dpram[..][off..off + length];
        ok := true;
      }
    }
  }
}
