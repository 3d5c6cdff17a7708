/** Frames: stretches of the instruction stack at the bottom of the dual-port RAM, four words an entry. */
module FrameStack {
  import TimeCodes

  const MAXFRAMES := 20
  const STACK_WORDS := 0x1a00
  const ENTRY_WORDS := 4
  const NO_ALTER: Word := 0x7F00

  /** A word of the dual-port RAM. */
  type Word = w: int | 0 <= w < 0x10000

  datatype Frame = Frame(frameptr: nat, msgcnt: nat)

  /** A line of the caller's frame description; an id below 1 ends it. */
  datatype Line = Line(id: int, gaptime: nat)

  /** Byte offset of a word address, as stack entries hold it. */
  function ByteAddress(w: nat): Word
    requires w < 0x8000
  {
    2 * w
  }

  function Short(n: nat): Word { n % 0x10000 }

  /** A stack entry as Create_Frame writes it. */
  function Entry(address: nat, gap: nat, nios250: bool): (e: seq<Word>)
    requires address < 0x8000
    ensures |e| == ENTRY_WORDS && e[0] == ByteAddress(address) && e[3] == 0
  {
    [ByteAddress(address), Short(TimeCodes.GapTime(gap, nios250)), Short(TimeCodes.ImgMult(gap, nios250)), 0]
  }

  function FrameEnd(f: Frame): nat { f.frameptr + 8 * f.msgcnt }

  /** Frames follow each other from the bottom of the stack up to `nextstack`. */
  ghost predicate Tiled(frames: seq<Frame>, nextstack: nat)
  {
    && (frames == [] ==> nextstack == 0)
    && (frames != [] ==> frames[0].frameptr == 0)
    && (frames != [] ==> FrameEnd(frames[|frames| - 1]) == 2 * nextstack)
    && (forall i, j :: 0 <= i < j < |frames| && j == i + 1 ==> FrameEnd(frames[i]) == frames[j].frameptr)
  }

  /** Entry k points at message entries[k], which is there. */
  ghost predicate Pointing(stack: seq<Word>, entries: seq<nat>, alloc: seq<nat>, nextid: nat)
    requires 4 * |entries| <= |stack| && nextid <= |alloc|
  {
    forall k :: 0 <= k < |entries| ==>
      1 <= entries[k] < nextid && alloc[entries[k]] < 0x8000 && stack[4 * k] == ByteAddress(alloc[entries[k]])
  }

  ghost predicate FramesOk(stack: seq<Word>, frames: seq<Frame>, nextstack: nat, entries: seq<nat>, alloc: seq<nat>,
                           nextid: nat)
  {
    && |stack| == STACK_WORDS && |frames| <= MAXFRAMES && nextid <= |alloc|
    && 4 * |entries| == nextstack <= STACK_WORDS
    && Tiled(frames, nextstack) && Pointing(stack, entries, alloc, nextid)
  }

  lemma {:induction false} FramesApart(frames: seq<Frame>, nextstack: nat, i: nat, j: nat)
    requires Tiled(frames, nextstack) && i < j <= |frames|
    ensures FrameEnd(frames[i]) <= if j < |frames| then frames[j].frameptr else 2 * nextstack
    decreases j
  {
    if i + 1 < j {
      FramesApart(frames, nextstack, i, j - 1);
    }
  }

  /** Every frame begins at a whole entry. */
  lemma {:induction false} FrameAligned(frames: seq<Frame>, nextstack: nat, i: nat) returns (first: nat)
    requires Tiled(frames, nextstack) && i < |frames|
    ensures frames[i].frameptr == 8 * first
  {
    if i == 0 {
      first := 0;
    } else {
      var before := FrameAligned(frames, nextstack, i - 1);
      first := before + frames[i - 1].msgcnt;
    }
  }

  /** Where the library finds entry k of a frame, and which entry of the stack that is. */
  function EntryAddress(f: Frame, k: nat): nat { f.frameptr / 2 + k * ENTRY_WORDS }

  function EntryNumber(f: Frame, k: nat): nat { f.frameptr / 8 + k }

  lemma EntryIndex(frames: seq<Frame>, nextstack: nat, i: nat, k: nat)
    requires Tiled(frames, nextstack) && i < |frames| && k < frames[i].msgcnt
    ensures EntryAddress(frames[i], k) == 4 * EntryNumber(frames[i], k)
        && 4 * EntryNumber(frames[i], k) + 4 <= nextstack
  {
    var first := FrameAligned(frames, nextstack, i);
    FramesApart(frames, nextstack, i, |frames|);
    hide Tiled;
  }

  /** Where the library finds the status word of entry k of a frame. */
  function StatusAddress(f: Frame, k: nat): nat { f.frameptr / 2 + k * ENTRY_WORDS + 3 }

  /** That is byte 8k + 6 of the frame, the last word of one of its own entries and of no other. */
  lemma StatusIsOwn(frames: seq<Frame>, nextstack: nat, i: nat, k: nat, j: nat, l: nat)
    requires Tiled(frames, nextstack) && i < |frames| && k < frames[i].msgcnt && j < |frames| && l < frames[j].msgcnt
    ensures 2 * StatusAddress(frames[i], k) == frames[i].frameptr + 8 * k + 6
    ensures StatusAddress(frames[i], k) < nextstack
    ensures StatusAddress(frames[i], k) == StatusAddress(frames[j], l) <==> i == j && k == l
  {
    var first := FrameAligned(frames, nextstack, i);
    var other := FrameAligned(frames, nextstack, j);
    FramesApart(frames, nextstack, i, |frames|);
    FramesApart(frames, nextstack, j, |frames|);
    if i < j { FramesApart(frames, nextstack, i, j); }
    if j < i { FramesApart(frames, nextstack, j, i); }
    hide Tiled, StatusAddress;
    StatusOfEntry(frames[i], k, first);
    StatusOfEntry(frames[j], l, other);
  }

  lemma StatusOfEntry(f: Frame, k: nat, first: nat)
    requires f.frameptr == 8 * first
    ensures StatusAddress(f, k) == 4 * (first + k) + 3
  {
  }

  /** Entry k of frame i is entry number `e` of the stack. */
  lemma EntryOfFrame(frames: seq<Frame>, nextstack: nat, i: nat, k: nat) returns (e: nat)
    requires Tiled(frames, nextstack) && i < |frames| && k < frames[i].msgcnt
    ensures frames[i].frameptr / 2 + k * ENTRY_WORDS == 4 * e && 4 * e + 4 <= nextstack
    ensures StatusAddress(frames[i], k) == 4 * e + 3
  {
    var first := FrameAligned(frames, nextstack, i);
    FramesApart(frames, nextstack, i, |frames|);
    e := first + k;
  }

  /** More messages, or other words of the dual-port RAM, change nothing for the frames. */
  lemma FramesKept(stack: seq<Word>, stack': seq<Word>, frames: seq<Frame>, nextstack: nat, entries: seq<nat>,
                   alloc: seq<nat>, alloc': seq<nat>, nextid: nat, nextid': nat)
    requires FramesOk(stack, frames, nextstack, entries, alloc, nextid)
    requires |stack'| == |stack| && nextid <= nextid' <= |alloc'|
    requires forall k :: 0 <= k < nextstack && k % 4 == 0 ==> stack'[k] == stack[k]
    requires forall id :: 1 <= id < nextid ==> alloc'[id] == alloc[id]
    ensures FramesOk(stack', frames, nextstack, entries, alloc', nextid')
  {
    hide ByteAddress;
  }

  /** A finished frame goes on top. */
  lemma FrameAdded(stack: seq<Word>, frames: seq<Frame>, nextstack: nat, entries: seq<nat>, more: seq<nat>,
                   alloc: seq<nat>, nextid: nat)
    requires FramesOk(stack, frames, nextstack, entries, alloc, nextid)
    requires |frames| < MAXFRAMES && nextstack + 4 * |more| <= STACK_WORDS
    requires Pointing(stack, entries + more, alloc, nextid)
    ensures FramesOk(stack, frames + [Frame(2 * nextstack, |more|)], nextstack + 4 * |more|, entries + more, alloc,
                     nextid)
  {
    hide Pointing;
    var frames' := frames + [Frame(2 * nextstack, |more|)];
    forall i, j | 0 <= i < j < |frames'| && j == i + 1 ensures FrameEnd(frames'[i]) == frames'[j].frameptr {
      assert frames'[i] == frames[i];
    }
  }
}
