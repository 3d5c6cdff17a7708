/**
 Frames, as functions of the card's state: creating them, looking at the status of their entries,
 and reading the messages that the entries point at.
 */
module CardFrames {
  import opened MessageLayout
  import opened MessageAllocator
  import opened FrameStack
  import opened CardState
  import opened CardMessages

  /** The caller's description ends with the first id below 1. */
  predicate Terminated(lines: seq<Line>) { exists i :: 0 <= i < |lines| && lines[i].id <= 0 }

  function LineCount(lines: seq<Line>): (n: nat)
    ensures n <= |lines|
    ensures n < |lines| ==> lines[n].id <= 0
    ensures forall i :: 0 <= i < n ==> lines[i].id > 0
  {
    if lines == [] || lines[0].id <= 0 then 0 else 1 + LineCount(lines[1..])
  }

  /** Why Create_Frame stops at a line, if it does. */
  function LineFault(c: Card, lines: seq<Line>, i: nat): Result<()>
    requires i < |lines|
  {
    if lines[i].id >= c.slots.nextid then Err(FrmBadId)
    else if c.nextstack + ENTRY_WORDS * (i + 1) > STACK_WORDS then Err(FrmNoStackSp)
    else if |c.frames| >= MAXFRAMES then Err(FrmMaxFrame) else Ok(())
  }

  /** The lines it gets through. */
  function GoodLines(c: Card, lines: seq<Line>, i: nat): (n: nat)
    requires i <= LineCount(lines)
    ensures i <= n <= LineCount(lines)
    ensures forall k :: i <= k < n ==> LineFault(c, lines, k).Ok?
    ensures n < LineCount(lines) ==> LineFault(c, lines, n).Err?
    decreases LineCount(lines) - i
  {
    if i == LineCount(lines) || LineFault(c, lines, i).Err? then i else GoodLines(c, lines, i + 1)
  }

  /** The stack entries for the first n lines. */
  function EntryWords(alloc: seq<nat>, lines: seq<Line>, n: nat, nios250: bool): (w: seq<Word>)
    requires n <= |lines| && forall i :: 0 <= i < n ==> 0 <= lines[i].id < |alloc| && alloc[lines[i].id] < 0x8000
    ensures |w| == ENTRY_WORDS * n
  {
    if n == 0 then []
    else EntryWords(alloc, lines, n - 1, nios250) + Entry(alloc[lines[n - 1].id], lines[n - 1].gaptime, nios250)
  }

  lemma {:induction false} EntryWordsAt(alloc: seq<nat>, lines: seq<Line>, n: nat, nios250: bool, k: nat)
    requires n <= |lines| && forall i :: 0 <= i < n ==> 0 <= lines[i].id < |alloc| && alloc[lines[i].id] < 0x8000
    requires k < n
    ensures EntryWords(alloc, lines, n, nios250)[4 * k..4 * k + 4] ==
            Entry(alloc[lines[k].id], lines[k].gaptime, nios250)
    ensures EntryWords(alloc, lines, n, nios250)[4 * k] == ByteAddress(alloc[lines[k].id])
  {
    hide Entry;
    var v, e := EntryWords(alloc, lines, n - 1, nios250), Entry(alloc[lines[n - 1].id], lines[n - 1].gaptime, nios250);
    assert EntryWords(alloc, lines, n, nios250) == v + e;
    if k < n - 1 {
      EntryWordsAt(alloc, lines, n - 1, nios250, k);
    }
    EntryOfJoin(v, e, k);
  }

  lemma EntryOfJoin(v: seq<Word>, e: seq<Word>, k: nat)
    requires |e| == ENTRY_WORDS && ENTRY_WORDS * k <= |v|
    ensures ENTRY_WORDS * k == |v| ==> (v + e)[4 * k..4 * k + 4] == e && (v + e)[4 * k] == e[0]
    ensures ENTRY_WORDS * (k + 1) <= |v| ==>
              (v + e)[4 * k..4 * k + 4] == v[4 * k..4 * k + 4] && (v + e)[4 * k] == v[4 * k]
  {
  }

  function Ids(lines: seq<Line>, n: nat): (ids: seq<nat>)
    requires n <= |lines| && forall i :: 0 <= i < n ==> lines[i].id > 0
    ensures |ids| == n && forall i :: 0 <= i < n ==> ids[i] == lines[i].id
  {
    seq(n, i requires 0 <= i < n => lines[i].id)
  }

  lemma LinesPointAtLive(c: Card, lines: seq<Line>, n: nat)
    requires Sound(c) && n <= LineCount(lines) && forall k :: 0 <= k < n ==> LineFault(c, lines, k).Ok?
    ensures forall i :: 0 <= i < n ==>
      0 < lines[i].id < c.slots.nextid <= |c.slots.alloc| && c.slots.alloc[lines[i].id] < 0x8000
    ensures c.nextstack + ENTRY_WORDS * n <= STACK_WORDS <= |c.mem|
  {
    SoundShape(c);
    SoundSlots(c);
    hide Sound, AllocOk;
    if n > 0 { assert LineFault(c, lines, n - 1).Ok?; }
    forall i | 0 <= i < n
      ensures 0 < lines[i].id < c.slots.nextid <= |c.slots.alloc| && c.slots.alloc[lines[i].id] < 0x8000
    {
      assert LineFault(c, lines, i).Ok?;
    }
  }

  function WithEntries(c: Card, lines: seq<Line>, n: nat, nios250: bool): Card
    requires Sound(c) && n <= LineCount(lines) && forall k :: 0 <= k < n ==> LineFault(c, lines, k).Ok?
  {
    LinesPointAtLive(c, lines, n);
    hide Sound;
    WithMem(c, Put(c.mem, c.nextstack, EntryWords(c.slots.alloc, lines, n, nios250)))
  }

  /**
   Create_Frame, in Bus Controller mode.  A line at fault ends it after the entries before were
   written; the limit on frames is looked at for every line, so an empty frame slips past it.
   */
  function CreateFrame(c: Card, lines: seq<Line>, nios250: bool): (Result<nat>, Card)
    requires Sound(c) && Terminated(lines) && (LineCount(lines) == 0 ==> |c.frames| < MAXFRAMES)
  {
    var n := GoodLines(c, lines, 0);
    var c' := WithEntries(c, lines, n, nios250);
    if n < LineCount(lines) then (Err(LineFault(c, lines, n).error), c')
    else (Ok(|c.frames|), c'.(frames := c.frames + [Frame(2 * c.nextstack, n)],
                              nextstack := c.nextstack + ENTRY_WORDS * n,
                              entries := c.entries + Ids(lines, n)))
  }

  /** A frame that gets to the table has a place there, unless it is empty and the table is full. */
  lemma FrameHasPlaceWhen(c: Card, lines: seq<Line>)
    requires Sound(c) && Terminated(lines)
    ensures (GoodLines(c, lines, 0) == LineCount(lines) ==> |c.frames| < MAXFRAMES) <==>
            !(LineCount(lines) == 0 && |c.frames| == MAXFRAMES)
  {
    SoundShape(c);
    hide Sound;
    if GoodLines(c, lines, 0) == LineCount(lines) && LineCount(lines) > 0 {
      assert LineFault(c, lines, 0).Ok?;
    }
  }

  lemma {:induction false} GoodLinesIs(c: Card, lines: seq<Line>, from: nat, i: nat)
    requires from <= i <= LineCount(lines) && forall k :: from <= k < i ==> LineFault(c, lines, k).Ok?
    requires i < LineCount(lines) ==> LineFault(c, lines, i).Err?
    ensures GoodLines(c, lines, from) == i
    decreases i - from
  {
    if from < i { GoodLinesIs(c, lines, from + 1, i); }
  }

  /** The messages are out of reach of the stack. */
  lemma StackWriteKeeps(c: Card, at: nat, data: seq<Word>)
    requires Sound(c) && at + |data| <= STACK_WORDS
    ensures at + |data| <= |c.mem|
    ensures AllRecorded(Put(c.mem, at, data), c.slots.alloc, c.types, c.slots.nextid)
    ensures Put(c.mem, at, data)[..STACK_WORDS] == Put(c.mem[..STACK_WORDS], at, data)
  {
    SoundShape(c);
    SoundSlots(c);
    PutAt(c.mem, at, data);
    hide Recorded, AllocOk, FramesOk, Put;
    StackOf(c.mem, at, data);
  }

  lemma StackOf(mem: seq<Word>, at: nat, data: seq<Word>)
    requires at + |data| <= STACK_WORDS <= |mem|
    ensures Put(mem, at, data)[..STACK_WORDS] == Put(mem[..STACK_WORDS], at, data)
  {
  }

  /** Writing above the frames there are keeps them. */
  lemma WriteAboveKeeps(c: Card, data: seq<Word>)
    requires Sound(c) && c.nextstack + |data| <= STACK_WORDS
    ensures c.nextstack + |data| <= |c.mem| && Sound(WithMem(c, Put(c.mem, c.nextstack, data)))
  {
    SoundShape(c);
    StackWriteKeeps(c, c.nextstack, data);
    var stack := c.mem[..STACK_WORDS];
    PutAt(stack, c.nextstack, data);
    FramesKept(stack, Put(stack, c.nextstack, data), c.frames, c.nextstack, c.entries, c.slots.alloc, c.slots.alloc,
               c.slots.nextid, c.slots.nextid);
    hide AllRecorded, FramesOk, AllocOk, Put;
  }

  lemma CreateFrameKeeps(c: Card, lines: seq<Line>, nios250: bool)
    requires Sound(c) && Terminated(lines) && (LineCount(lines) == 0 ==> |c.frames| < MAXFRAMES)
    ensures Sound(CreateFrame(c, lines, nios250).1)
  {
    var n := GoodLines(c, lines, 0);
    LinesPointAtLive(c, lines, n);
    var words := EntryWords(c.slots.alloc, lines, n, nios250);
    var c' := WithEntries(c, lines, n, nios250);
    hide EntryWords;
    WriteAboveKeeps(c, words);
    if n == LineCount(lines) {
      if n > 0 { assert LineFault(c, lines, n - 1).Ok?; }
      NewEntriesPoint(c, lines, n, nios250);
      AddFrame(c', Ids(lines, n));
    }
    hide Sound, Put;
  }

  lemma AddFrame(c: Card, more: seq<nat>)
    requires Sound(c) && |c.frames| < MAXFRAMES && c.nextstack + 4 * |more| <= STACK_WORDS
    requires 4 * |c.entries + more| <= STACK_WORDS <= |c.mem| && c.slots.nextid <= |c.slots.alloc|
    requires Pointing(c.mem[..STACK_WORDS], c.entries + more, c.slots.alloc, c.slots.nextid)
    ensures Sound(c.(frames := c.frames + [Frame(2 * c.nextstack, |more|)],
                     nextstack := c.nextstack + ENTRY_WORDS * |more|,
                     entries := c.entries + more))
  {
    SoundShape(c);
    FrameAdded(c.mem[..STACK_WORDS], c.frames, c.nextstack, c.entries, more, c.slots.alloc, c.slots.nextid);
    hide AllocOk, AllRecorded, FramesOk;
  }

  lemma NewEntriesPoint(c: Card, lines: seq<Line>, n: nat, nios250: bool)
    requires Sound(c) && n <= LineCount(lines) && forall k :: 0 <= k < n ==> LineFault(c, lines, k).Ok?
    ensures var c' := WithEntries(c, lines, n, nios250);
      && 4 * |c.entries + Ids(lines, n)| <= STACK_WORDS <= |c'.mem| && c.slots.nextid <= |c.slots.alloc|
      && Pointing(c'.mem[..STACK_WORDS], c.entries + Ids(lines, n), c.slots.alloc, c.slots.nextid)
  {
    hide Sound, Put, EntryWords, LineFault, ByteAddress, PointsAt;
    LinesPointAtLive(c, lines, n);
    SoundShape(c);
    StackPoints(c);
    var words, all := EntryWords(c.slots.alloc, lines, n, nios250), c.entries + Ids(lines, n);
    StackOf(c.mem, c.nextstack, words);
    forall k | 0 <= k < |all|
      ensures PointsAt(Put(c.mem[..STACK_WORDS], c.nextstack, words), 4 * k, all[k], c.slots.alloc, c.slots.nextid)
    {
      AllPoint(c.mem[..STACK_WORDS], c.entries, c.slots.alloc, c.slots.nextid, lines, n, nios250, k);
    }
    PointingFrom(Put(c.mem[..STACK_WORDS], c.nextstack, words), all, c.slots.alloc, c.slots.nextid);
  }

  predicate LinesLive(alloc: seq<nat>, nextid: nat, lines: seq<Line>, n: nat)
  {
    n <= |lines| && forall i :: 0 <= i < n ==> 0 < lines[i].id < nextid <= |alloc| && alloc[lines[i].id] < 0x8000
  }

  lemma AllPoint(stack: seq<Word>, entries: seq<nat>, alloc: seq<nat>, nextid: nat, lines: seq<Line>, n: nat,
                 nios250: bool, k: nat)
    requires n <= |lines| && k < |entries| + n && 4 * (|entries| + n) <= |stack|
    requires LinesLive(alloc, nextid, lines, n)
    requires forall i :: 0 <= i < |entries| ==> PointsAt(stack, 4 * i, entries[i], alloc, nextid)
    ensures PointsAt(Put(stack, 4 * |entries|, EntryWords(alloc, lines, n, nios250)), 4 * k,
                     (entries + Ids(lines, n))[k], alloc, nextid)
  {
    hide Put, EntryWords, ByteAddress, PointsAt;
    assert |EntryWords(alloc, lines, n, nios250)| == 4 * n;
    if k < |entries| {
      assert PointsAt(stack, 4 * k, entries[k], alloc, nextid);
      StillPoints(stack, 4 * |entries|, EntryWords(alloc, lines, n, nios250), 4 * k, entries[k], alloc, nextid);
    } else {
      NewEntryPoints(alloc, lines, n, nios250, k - |entries|, stack, 4 * |entries|, nextid);
    }
  }

  lemma StillPoints(stack: seq<Word>, at: nat, words: seq<Word>, k: nat, id: nat, alloc: seq<nat>, nextid: nat)
    requires at + |words| <= |stack| && k < at && PointsAt(stack, k, id, alloc, nextid)
    ensures PointsAt(Put(stack, at, words), k, id, alloc, nextid)
  {
  }

  lemma NewEntryPoints(alloc: seq<nat>, lines: seq<Line>, n: nat, nios250: bool, k: nat, stack: seq<Word>, at: nat,
                       nextid: nat)
    requires n <= |lines| && k < n && at + ENTRY_WORDS * n <= |stack|
    requires LinesLive(alloc, nextid, lines, n)
    ensures PointsAt(Put(stack, at, EntryWords(alloc, lines, n, nios250)), at + 4 * k, lines[k].id, alloc, nextid)
  {
    var words := EntryWords(alloc, lines, n, nios250);
    EntryWordsAt(alloc, lines, n, nios250, k);
    hide EntryWords, ByteAddress;
    PutAt(stack, at, words);
    hide Put;
    assert Put(stack, at, words)[at + 4 * k] == words[4 * k];
  }

  predicate PointsAt(stack: seq<Word>, at: nat, id: nat, alloc: seq<nat>, nextid: nat)
  {
    1 <= id < nextid && id < |alloc| && alloc[id] < 0x8000 && at < |stack| && stack[at] == ByteAddress(alloc[id])
  }

  lemma StackPoints(c: Card)
    requires Sound(c)
    ensures forall k :: 0 <= k < |c.entries| ==>
      PointsAt(c.mem[..STACK_WORDS], 4 * k, c.entries[k], c.slots.alloc, c.slots.nextid)
  {
    hide AllRecorded, AllocOk;
  }

  lemma PointingFrom(stack: seq<Word>, entries: seq<nat>, alloc: seq<nat>, nextid: nat)
    requires 4 * |entries| <= |stack| && nextid <= |alloc|
    requires forall k :: 0 <= k < |entries| ==> PointsAt(stack, 4 * k, entries[k], alloc, nextid)
    ensures Pointing(stack, entries, alloc, nextid)
  {
    forall k | 0 <= k < |entries|
      ensures 1 <= entries[k] < nextid && alloc[entries[k]] < 0x8000 && stack[4 * k] == ByteAddress(alloc[entries[k]])
    {
      assert PointsAt(stack, 4 * k, entries[k], alloc, nextid);
    }
  }

  /** A frame created: it lies on top of the others, and each of its entries is what its line asks for. */
  lemma FrameHoldsLines(c: Card, lines: seq<Line>, nios250: bool, k: nat)
    requires Sound(c) && Terminated(lines) && (LineCount(lines) == 0 ==> |c.frames| < MAXFRAMES)
    requires CreateFrame(c, lines, nios250).0.Ok? && k < LineCount(lines)
    ensures var (r, c') := CreateFrame(c, lines, nios250);
      && r == Ok(|c.frames|) && c'.frames == c.frames + [Frame(2 * c.nextstack, LineCount(lines))]
      && c'.nextstack == c.nextstack + ENTRY_WORDS * LineCount(lines) <= STACK_WORDS <= |c'.mem| == |c.mem|
      && c'.mem[..c.nextstack] == c.mem[..c.nextstack]
      && 0 < lines[k].id < c.slots.nextid <= |c.slots.alloc| && c.slots.alloc[lines[k].id] < 0x8000
      && c'.mem[c.nextstack + 4 * k..c.nextstack + 4 * k + 4] ==
         Entry(c.slots.alloc[lines[k].id], lines[k].gaptime, nios250)
  {
    hide Sound, EntryWords, Entry, CreateFrame, LineFault, Put;
    CreatedFrame(c, lines, nios250);
    var n := LineCount(lines);
    var words := EntryWords(c.slots.alloc, lines, n, nios250);
    EntryWordsAt(c.slots.alloc, lines, n, nios250, k);
    SliceOfPut(c.mem, c.nextstack, words, 4 * k);
  }

  lemma CreatedFrame(c: Card, lines: seq<Line>, nios250: bool)
    requires Sound(c) && Terminated(lines) && (LineCount(lines) == 0 ==> |c.frames| < MAXFRAMES)
    requires CreateFrame(c, lines, nios250).0.Ok?
    ensures var (r, c') := CreateFrame(c, lines, nios250); var n := LineCount(lines);
      && r == Ok(|c.frames|) && c'.frames == c.frames + [Frame(2 * c.nextstack, n)]
      && c'.nextstack == c.nextstack + ENTRY_WORDS * n <= STACK_WORDS <= |c.mem|
      && (forall i :: 0 <= i < n ==>
            0 < lines[i].id < c.slots.nextid <= |c.slots.alloc| && c.slots.alloc[lines[i].id] < 0x8000)
      && c'.mem == Put(c.mem, c.nextstack, EntryWords(c.slots.alloc, lines, n, nios250))
  {
    LinesPointAtLive(c, lines, GoodLines(c, lines, 0));
    hide Sound, EntryWords, LineFault, Put;
  }

  lemma SliceOfPut(mem: seq<Word>, at: nat, words: seq<Word>, k: nat)
    requires at + |words| <= |mem| && k + 4 <= |words|
    ensures Put(mem, at, words)[at + k..at + k + 4] == words[k..k + 4] && Put(mem, at, words)[..at] == mem[..at]
  {
  }

  /** A frame that cannot be created leaves the frames, and the stack below them, as they were. */
  lemma FailedFrameChangesNothing(c: Card, lines: seq<Line>, nios250: bool)
    requires Sound(c) && Terminated(lines) && (LineCount(lines) == 0 ==> |c.frames| < MAXFRAMES)
    requires CreateFrame(c, lines, nios250).0.Err?
    ensures var (r, c') := CreateFrame(c, lines, nios250); var n := GoodLines(c, lines, 0);
      && n < LineCount(lines) && r == Err(LineFault(c, lines, n).error)
      && |c'.mem| == |c.mem| && c.nextstack <= |c.mem|
      && c'.mem[..c.nextstack] == c.mem[..c.nextstack] && c' == c.(mem := c'.mem)
  {
    hide Sound, EntryWords, LineFault, Put, Entry;
    var n := GoodLines(c, lines, 0);
    LinesPointAtLive(c, lines, n);
    BelowPut(c.mem, c.nextstack, EntryWords(c.slots.alloc, lines, n, nios250));
  }

  lemma BelowPut(mem: seq<Word>, at: nat, words: seq<Word>)
    requires at + |words| <= |mem|
    ensures Put(mem, at, words)[..at] == mem[..at]
  {
  }

  // ---- Looking at entries ----

  /**
   Get_Msgentry_Status, in Bus Controller mode: a status that was read is cleared, unless the message is being
   sent.
   */
  function EntryStatus(c: Card, frameid: int, msgentry: int): (Result<Word>, Card)
    requires Sound(c)
  {
    if frameid < 0 || frameid >= |c.frames| then (Err(FrmErange), c)
    else if msgentry < 0 then (Err(Einval), c)
    else if msgentry >= c.frames[frameid].msgcnt then (Err(FrmErangeCnt), c)
    else
      SoundShape(c);
      SoundFrames(c);
      hide Sound;
      StatusIsOwn(c.frames, c.nextstack, frameid, msgentry, frameid, msgentry);
      var at := StatusAddress(c.frames[frameid], msgentry);
      var status := c.mem[at];
      (Ok(status), if status != 0 && status != NO_ALTER then WithMem(c, c.mem[at := 0]) else c)
  }

  lemma SoundFrames(c: Card)
    requires Sound(c)
    ensures Tiled(c.frames, c.nextstack) && c.nextstack == 4 * |c.entries|
  {
  }

  /** The status word of the entry asked for, byte 8k + 6 of its frame, is all that it may touch. */
  lemma EntryStatusKeeps(c: Card, frameid: int, msgentry: int)
    requires Sound(c)
    ensures var (r, c') := EntryStatus(c, frameid, msgentry);
      && Sound(c') && (r.Err? ==> c' == c)
      && (r.Ok? ==>
            && 0 <= frameid < |c.frames| && 0 <= msgentry < c.frames[frameid].msgcnt
            && var at := StatusAddress(c.frames[frameid], msgentry);
            && 2 * at == c.frames[frameid].frameptr + 8 * msgentry + 6 && at < c.nextstack <= |c.mem|
            && r.value == c.mem[at]
            && c' == c.(mem := c.mem[at := if r.value == NO_ALTER then NO_ALTER else 0]))
  {
    SoundShape(c);
    SoundFrames(c);
    if 0 <= frameid < |c.frames| && 0 <= msgentry < c.frames[frameid].msgcnt {
      StatusIsOwn(c.frames, c.nextstack, frameid, msgentry, frameid, msgentry);
      var e := EntryOfFrame(c.frames, c.nextstack, frameid, msgentry);
      var at := StatusAddress(c.frames[frameid], msgentry);
      StatusWriteKeeps(c, at, e);
      hide Sound, Tiled;
      assert c.mem[at := c.mem[at]] == c.mem;
    }
  }

  lemma StatusWriteKeeps(c: Card, at: nat, e: nat)
    requires Sound(c) && at == 4 * e + 3 && at < c.nextstack
    ensures at < |c.mem| && Sound(WithMem(c, c.mem[at := 0]))
  {
    SoundShape(c);
    StackWriteKeeps(c, at, [0]);
    OneWord(c.mem, at, 0);
    var stack := c.mem[..STACK_WORDS];
    PutAt(stack, at, [0]);
    FramesKept(stack, Put(stack, at, [0]), c.frames, c.nextstack, c.entries, c.slots.alloc, c.slots.alloc,
               c.slots.nextid, c.slots.nextid);
    hide AllRecorded, FramesOk, AllocOk, Put;
  }

  /** The message that an entry points at. */
  function EntryMessage(c: Card, frameid: int, msgentry: int): (id: nat)
    requires Sound(c) && 0 <= frameid < |c.frames| && 0 <= msgentry < c.frames[frameid].msgcnt
    ensures 1 <= id < c.slots.nextid
  {
    SoundShape(c);
    SoundFrames(c);
    StackPoints(c);
    hide Sound;
    EntryIndex(c.frames, c.nextstack, frameid, msgentry);
    assert PointsAt(c.mem[..STACK_WORDS], 4 * EntryNumber(c.frames[frameid], msgentry),
                    c.entries[EntryNumber(c.frames[frameid], msgentry)], c.slots.alloc, c.slots.nextid);
    c.entries[EntryNumber(c.frames[frameid], msgentry)]
  }

  /** Its first word is that message's address. */
  lemma EntryPointsAt(c: Card, frameid: int, msgentry: int)
    requires Sound(c) && 0 <= frameid < |c.frames| && 0 <= msgentry < c.frames[frameid].msgcnt
    ensures var id, at := EntryMessage(c, frameid, msgentry), EntryAddress(c.frames[frameid], msgentry);
      id < |c.slots.alloc| && at < STACK_WORDS <= |c.mem| && c.mem[at] == 2 * c.slots.alloc[id]
  {
    SoundShape(c);
    SoundFrames(c);
    StackPoints(c);
    EntryIndex(c.frames, c.nextstack, frameid, msgentry);
    var e := EntryNumber(c.frames[frameid], msgentry);
    hide Sound, Tiled, AllocOk, EntryNumber, EntryAddress;
    assert PointsAt(c.mem[..STACK_WORDS], 4 * e, c.entries[e], c.slots.alloc, c.slots.nextid);
  }

  /** No two live messages have the same address. */
  lemma AddressesDiffer(c: Card, id: nat, other: nat)
    requires Sound(c) && Live(c.slots, id) && Live(c.slots, other) && other != id
    ensures id < |c.slots.alloc| && other < |c.slots.alloc| && c.slots.alloc[other] != c.slots.alloc[id]
  {
    hide Sound, AllocOk;
    SoundShape(c);
    LiveSlot(c, other);
    LiveSlot(c, id);
    if other < id { SlotsDisjoint(c.slots, other, id); } else { SlotsDisjoint(c.slots, id, other); }
  }

  lemma MessagesAreAbove(c: Card)
    requires Sound(c)
    ensures |c.slots.alloc| == MSGMAX && 1 <= c.slots.nextid <= MSGMAX && c.slots.alloc[0] == 0
    ensures forall id :: 1 <= id < c.slots.nextid ==> BLOCK1 <= c.slots.alloc[id]
  {
    SoundSlots(c);
    hide Sound;
  }

  /** A message that can be read, or told to be none. */
  predicate KindedAt(c: Card, id: nat) { LiveAt(c, id) && (KindOf(c, id) == MINOR_FRAME || ReadableAt(c, id)) }

  lemma StillKinded(c: Card, frameid: int, msgentry: int, id: nat)
    requires Sound(c) && KindedAt(c, id)
    ensures var c' := EntryStatus(c, frameid, msgentry).1;
      Sound(c') && KindedAt(c', id) && KindOf(c', id) == KindOf(c, id)
  {
    LiveSlot(c, id);
    hide Sound, KindIn, Room, Bits, Known, EntryStatus, Words;
    EntryStatusKeeps(c, frameid, msgentry);
    var c' := EntryStatus(c, frameid, msgentry).1;
    SameKind(c, c', id);
    if KindOf(c, id) !in {MINOR_FRAME, JUMP} { SameCommand(c, c', id); }
  }

  const ENTRY_READ_WORDS: nat := 36

  lemma ReadFits(c: Card, id: nat)
    requires Sound(c) && KindedAt(c, id) && ReadMessage(c, id).Ok?
    ensures |ReadMessage(c, id).value| <= ENTRY_READ_WORDS
  {
    hide Sound, Words, Room, KindOf, CommandOf, Known;
    if KindOf(c, id) != JUMP { LongestMessage(KindOf(c, id), CommandOf(c, id)); }
  }

  /**
   Get_BC_Msgentry's answer for entry k of a frame if it points at message id: the entry's status, the word at
   byte 8k + 6, and the words that reading the message gives, with zeros after them up to 36.
   */
  predicate AnswersFor(c: Card, id: nat, f: Frame, k: nat, r: Result<(Word, seq<Word>)>)
  {
    var at := (f.frameptr + 8 * k) / 2;
    && KindedAt(c, id) && at + 3 < |c.mem| && c.mem[at] == 2 * c.slots.alloc[id]
    && if KindOf(c, id) == MINOR_FRAME then r == Err(EminorFrame)
       else
         && r.Ok? && ReadMessage(c, id).Ok? && r.value.0 == c.mem[at + 3]
         && var words := ReadMessage(c, id).value;
         && |words| <= |r.value.1| == 36 && (forall i :: 0 <= i < |words| ==> r.value.1[i] == words[i])
         && forall i :: |words| <= i < 36 ==> r.value.1[i] == 0
  }

  /** The answer for any frame and entry number. */
  ghost predicate EntryAnswer(c: Card, frameid: int, msgentry: int, r: Result<(Word, seq<Word>)>)
  {
    if !(0 <= frameid < |c.frames|) then r == Err(FrmErange)
    else if msgentry < 0 then r == Err(Einval)
    else if msgentry >= c.frames[frameid].msgcnt then r == Err(FrmErangeCnt)
    else exists id: nat :: AnswersFor(c, id, c.frames[frameid], msgentry, r)
  }

  lemma StatusBounds(c: Card, frameid: int, msgentry: int)
    requires Sound(c)
    ensures EntryStatus(c, frameid, msgentry).0.Ok? <==>
      0 <= frameid < |c.frames| && 0 <= msgentry < c.frames[frameid].msgcnt
  {
    hide Sound;
  }

  lemma EntryBytes(f: Frame, k: nat)
    ensures (f.frameptr + 8 * k) / 2 == EntryAddress(f, k) && StatusAddress(f, k) == EntryAddress(f, k) + 3
  {
  }

  lemma EntryRefused(c: Card, frameid: int, msgentry: int)
    requires Sound(c) && EntryStatus(c, frameid, msgentry).0.Err?
    ensures EntryAnswer(c, frameid, msgentry, Err(EntryStatus(c, frameid, msgentry).0.error))
  {
    hide Sound;
  }

  lemma EntryAnswered(c: Card, frameid: int, msgentry: int, status: Word, r: Result<(Word, seq<Word>)>)
    requires Sound(c) && 0 <= frameid < |c.frames| && 0 <= msgentry < c.frames[frameid].msgcnt
    requires KindedAt(c, EntryMessage(c, frameid, msgentry)) && EntryStatus(c, frameid, msgentry).0 == Ok(status)
    requires var words := ReadMessage(c, EntryMessage(c, frameid, msgentry));
      if words.Err? then r == Err(words.error)
      else
        && r.Ok? && r.value.0 == status && |words.value| <= |r.value.1| == 36
        && (forall i :: 0 <= i < |words.value| ==> r.value.1[i] == words.value[i])
        && forall i :: |words.value| <= i < 36 ==> r.value.1[i] == 0
    ensures EntryAnswer(c, frameid, msgentry, r)
  {
    hide Sound, EntryStatus, EntryMessage, EntryAddress, StatusAddress, KindOf, CommandOf, Words, Room;
    EntryStatusKeeps(c, frameid, msgentry);
    EntryPointsAt(c, frameid, msgentry);
    EntryBytes(c.frames[frameid], msgentry);
    assert AnswersFor(c, EntryMessage(c, frameid, msgentry), c.frames[frameid], msgentry, r);
  }

  /** Clearing the status changes neither what the entry points at nor what is read there. */
  lemma EntryAfterStatus(c: Card, frameid: int, msgentry: int)
    requires Sound(c) && 0 <= frameid < |c.frames| && 0 <= msgentry < c.frames[frameid].msgcnt
    requires KindedAt(c, EntryMessage(c, frameid, msgentry))
    ensures var c' := EntryStatus(c, frameid, msgentry).1; var id := EntryMessage(c, frameid, msgentry);
      && Sound(c') && KindedAt(c', id) && ReadMessage(c', id) == ReadMessage(c, id)
      && EntryAddress(c.frames[frameid], msgentry) < |c'.mem|
      && c'.mem[EntryAddress(c.frames[frameid], msgentry)] == 2 * c.slots.alloc[id]
      && c'.slots == c.slots && c'.types == c.types && c'.frames == c.frames
  {
    var c', id := EntryStatus(c, frameid, msgentry).1, EntryMessage(c, frameid, msgentry);
    EntryStatusKeeps(c, frameid, msgentry);
    StillKinded(c, frameid, msgentry, id);
    EntryPointsAt(c, frameid, msgentry);
    StatusIsNotAddress(c.frames[frameid], msgentry);
    hide EntryAddress, StatusAddress, EntryStatus, EntryMessage;
    SameReading(c, c', id);
    hide Sound;
  }

  lemma StatusIsNotAddress(f: Frame, k: nat)
    ensures StatusAddress(f, k) != EntryAddress(f, k)
  {
  }

  lemma SameReading(c: Card, c': Card, id: nat)
    requires Sound(c) && Sound(c') && KindedAt(c, id) && KindedAt(c', id) && c'.slots == c.slots && c'.types == c.types
    requires |c'.mem| == |c.mem| && forall k :: STACK_WORDS <= k < |c.mem| ==> c'.mem[k] == c.mem[k]
    ensures ReadMessage(c', id) == ReadMessage(c, id)
  {
    hide Sound, Words, Room, KindOf, CommandOf, Known;
    LiveSlot(c, id);
    SameKind(c, c', id);
    if KindOf(c, id) == JUMP {
      SameAbove(c.mem, c'.mem, c.slots.alloc[id], 2);
    } else if KindOf(c, id) != MINOR_FRAME {
      LongestMessage(KindOf(c, id), CommandOf(c, id));
      SameCommand(c, c', id);
      SameAbove(c.mem, c'.mem, c.slots.alloc[id] + 1, Words(KindOf(c, id), CommandOf(c, id)));
    }
  }

  lemma SameKind(c: Card, c': Card, id: nat)
    requires LiveAt(c, id) && LiveAt(c', id) && c'.slots == c.slots && c'.types == c.types
    requires c'.mem[c.slots.alloc[id]] == c.mem[c.slots.alloc[id]]
    ensures KindOf(c', id) == KindOf(c, id)
  {
    hide KindIn;
  }

  lemma SameCommand(c: Card, c': Card, id: nat)
    requires LiveAt(c, id) && LiveAt(c', id) && c'.slots == c.slots
    requires |c'.mem| == |c.mem| && c.slots.alloc[id] + 1 < |c.mem|
    requires c'.mem[c.slots.alloc[id] + 1] == c.mem[c.slots.alloc[id] + 1]
    ensures CommandOf(c', id) == CommandOf(c, id)
  {
    hide Bits;
  }

  lemma SameAbove(mem: seq<Word>, mem': seq<Word>, lo: nat, n: nat)
    requires |mem| == |mem'| && STACK_WORDS <= lo && lo + n <= |mem|
    requires forall k :: STACK_WORDS <= k < |mem| ==> mem'[k] == mem[k]
    ensures mem'[lo..lo + n] == mem[lo..lo + n]
  {
  }
}
