/**
 What each Bus Controller call answers, and what exactly is different on the card afterwards: the
 functions of the card's state against the words of memory.
 */
module CardOutcomes {
  import opened MessageLayout
  import opened MessageAllocator
  import opened FrameStack
  import opened CardState
  import opened CardMessages
  import opened CardFrames
  import opened CardJumps
  import opened CardRuns
  import opened Common
  import opened StackScan
  import TimeCodes

  // ---- Creating and re-creating ----

  /** Bit 10 of a command word: the remote terminal transmits. */
  predicate Transmits(w: Word) { (Bits(w) >> 10) & 1 == 1 }

  /**
   The first command word of a message from an RT to the BC says transmit, that of one to an RT or to all
   RTs says receive; of an RT to RT transfer the first says receive and the second transmit.
   */
  predicate RightDirection(kind: bv16, data: seq<Word>)
    requires |data| >= 2
  {
    && (kind == RT2BC ==> Transmits(data[0]))
    && (kind in {BC2RT, BRD_RCV, RT2RT, BRD_RT2RT} ==> !Transmits(data[0]))
    && (kind in {RT2RT, BRD_RT2RT} ==> Transmits(data[1]))
  }

  lemma TransmitIsBit10(w: bv16)
    ensures w & TRANSMIT_BIT != 0 <==> (w >> 10) & 1 == 1
  {
  }

  /** Which kinds and command words are let through. */
  lemma KindAnswers(kind: bv16, data: seq<Word>)
    requires |data| >= 2
    ensures KindChecked(kind, data) ==
      if !Known(kind) && kind != MINOR_FRAME then Err(Einval)
      else if !RightDirection(kind, data) then Err(EbadCommandWord) else Ok(())
  {
    hide Bits, Known;
    TransmitIsBit10(Bits(data[0]));
    TransmitIsBit10(Bits(data[1]));
  }

  function RoomOf(cmdtype: bv16, data: seq<Word>): nat
    requires |data| >= 2
  {
    if cmdtype == MINOR_FRAME then 0 else Room(cmdtype, Bits(data[0]))
  }

  /** Where a message would go in block n: behind the last one if that is the current block, else at its start. */
  function PlaceIn(a: Allocator, n: nat): nat { if n == a.block then a.nextmsg else BlockStart(a.p, n) }

  predicate RoomIn(a: Allocator, n: nat, need: nat)
  {
    PlaceIn(a, n) + need <= BlockStart(a.p, n) + BlockSize(a.p, n)
  }

  /**
   No block has room, from the current one to the second on a PCMCIA AMD board, else to the third or, expanded,
   the fourth.
   */
  ghost predicate NoRoom(a: Allocator, expanded: bool, need: nat)
  {
    forall n :: n == a.block || a.block <= n <= (if a.p == Amd(true) then 2 else if expanded then 4 else 3) ==>
      !RoomIn(a, n, need)
  }

  lemma NoRoomIsNoFit(a: Allocator, expanded: bool, need: nat)
    ensures NoRoom(a, expanded, need) <==> NoFit(a, expanded, need)
  {
    forall n: nat ensures RoomIn(a, n, need) <==> FitsIn(a, n, need) {}
    hide FitsIn, RoomIn;
  }

  /** Block n is the first with room, from the current one on. */
  ghost predicate FirstWithRoom(a: Allocator, n: nat, need: nat)
  {
    a.block <= n <= 4 && RoomIn(a, n, need) && forall b :: a.block <= b < n ==> !RoomIn(a, b, need)
  }

  lemma FirstRoom(a: Allocator, n: nat, need: nat)
    requires IsFirstFit(a, n, need)
    ensures FirstWithRoom(a, n, need) && PlaceIn(a, n) == FreeAt(a, n)
  {
    forall b: nat ensures RoomIn(a, b, need) <==> FitsIn(a, b, need) {}
    hide FitsIn, RoomIn;
  }

  /** A create succeeds if kind, direction, ids and room allow; the first that does not names the error. */
  lemma CreateAnswers(c: Card, expanded: bool, cmdtype: bv16, data: seq<Word>)
    requires Sound(c) && |data| >= 2 && Supplied(RoomFor(cmdtype, data), data)
    ensures CreateMessage(c, expanded, cmdtype, data).0 ==
      if cmdtype !in {RT2BC, BC2RT, RT2RT, MODE, BRD_RCV, BRD_RT2RT, BRD_MODE, MINOR_FRAME} then Err(Einval)
      else if !RightDirection(cmdtype, data) then Err(EbadCommandWord)
      else if c.slots.nextid == MSGMAX then Err(Msg2Many)
      else if NoRoom(c.slots, expanded, 1 + RoomOf(cmdtype, data)) then Err(MsgNoSpace)
      else Ok(c.slots.nextid)
  {
    hide Sound, AllocOk, Chosen, KindChecked, AfterNoFit, IsFirstFit, NoFit, FreeAt, Room, RightDirection, WithMessage,
         Bits, NoRoom;
    SoundShape(c);
    KindAnswers(cmdtype, data);
    if Known(cmdtype) || cmdtype == MINOR_FRAME {
      assert RoomFor(cmdtype, data) == RoomOf(cmdtype, data);
      ChosenIsFirstFit(c.slots, expanded, 1 + RoomFor(cmdtype, data));
      NoRoomIsNoFit(c.slots, expanded, 1 + RoomFor(cmdtype, data));
      if NoFit(c.slots, expanded, 1 + RoomFor(cmdtype, data)) {
        NoneChosen(c.slots, expanded, 1 + RoomFor(cmdtype, data));
      }
    }
  }

  /** The words outside a stretch of memory are the same. */
  ghost predicate SameOutside(mem: seq<Word>, mem': seq<Word>, lo: nat, hi: nat)
  {
    |mem'| == |mem| && forall k :: 0 <= k < |mem| && !(lo <= k < hi) ==> mem'[k] == mem[k]
  }

  /** What a message holds: a control word and the data. */
  ghost predicate Holds(c: Card, id: nat, control: Word, data: seq<Word>)
  {
    InMem(c, id) && c.slots.extent[id] == 1 + |data| && SlotWords(c, id) == [control] + data
  }

  lemma PutHolds(mem: seq<Word>, at: nat, data: seq<Word>)
    requires at + |data| <= |mem|
    ensures Put(mem, at, data)[at..at + |data|] == data && SameOutside(mem, Put(mem, at, data), at, at + |data|)
  {
    PutAt(mem, at, data);
    hide Put;
  }

  /**
   A message created holds its kind, on bus A, and just the words its kind takes; it lies in the first block
   with room, where the next one goes right behind it; and nothing else has changed.
   */
  lemma CreateHolds(c: Card, expanded: bool, cmdtype: bv16, data: seq<Word>) returns (n: nat)
    requires Sound(c) && |data| >= 2 && Supplied(RoomFor(cmdtype, data), data)
    requires CreateMessage(c, expanded, cmdtype, data).0.Ok?
    ensures var c', id, room := CreateMessage(c, expanded, cmdtype, data).1, c.slots.nextid, RoomOf(cmdtype, data);
      && FirstWithRoom(c.slots, n, 1 + room) && room <= |data| && id < MSGMAX == |c'.slots.alloc| == |c.types|
      && Holds(c', id, 0x80 + Val(cmdtype), data[..room]) && c'.slots.alloc[id] == PlaceIn(c.slots, n)
      && SameOutside(c.mem, c'.mem, PlaceIn(c.slots, n), PlaceIn(c.slots, n) + 1 + room)
      && c' == c.(slots := c'.slots, mem := c'.mem, types := c.types[id := cmdtype])
      && c'.slots.nextid == id + 1 && c'.slots.block == n && c'.slots.nextmsg == PlaceIn(c.slots, n) + 1 + room
  {
    hide Sound, AllocOk, IsFirstFit, FreeAt, Room, RightDirection, CreateMessage, Bits, NoRoom, FirstWithRoom, PlaceIn,
         WithMessage, Holds, SameOutside;
    CreateAnswers(c, expanded, cmdtype, data);
    SoundShape(c);
    n := SuccessfulCreate(c, expanded, cmdtype, data);
    FirstRoom(c.slots, n, 1 + RoomOf(cmdtype, data));
    assert RoomFor(cmdtype, data) == RoomOf(cmdtype, data);
    WithMessageHolds(c, n, cmdtype, data[..RoomOf(cmdtype, data)]);
  }

  lemma WithMessageHolds(c: Card, n: nat, cmdtype: bv16, data: seq<Word>)
    requires Sound(c) && AllocOk(c.slots) && c.slots.nextid < MSGMAX && FreeAt(c.slots, n) + 1 + |data| <= |c.mem|
    requires Known(cmdtype) || cmdtype == MINOR_FRAME
    ensures var c', id, at := WithMessage(c, n, cmdtype, data), c.slots.nextid, FreeAt(c.slots, n);
      && |c.slots.alloc| == |c.types| == MSGMAX
      && Holds(c', id, 0x80 + Val(cmdtype), data) && SameOutside(c.mem, c'.mem, at, at + 1 + |data|)
      && c' == c.(slots := c'.slots, mem := c'.mem, types := c.types[id := cmdtype])
      && c'.slots.alloc == c.slots.alloc[id := at]
      && c'.slots.nextid == id + 1 && c'.slots.block == n && c'.slots.nextmsg == at + 1 + |data|
  {
    hide Sound, AllocOk, FreeAt, Put, Val;
    SoundShape(c);
    ControlOfNew(cmdtype);
    PutHolds(c.mem, FreeAt(c.slots, n), NewWords(cmdtype, data));
  }

  lemma ControlOfNew(cmdtype: bv16)
    requires Known(cmdtype) || cmdtype == MINOR_FRAME
    ensures Val(0x80 + cmdtype) == 0x80 + Val(cmdtype)
  {
  }

  /** Likewise for re-creating: the message must exist and fit before the next one. */
  lemma ReCreateAnswers(c: Card, cmdtype: bv16, data: seq<Word>, id: int)
    requires Sound(c) && |data| >= 2 && Supplied(ReCreatedRoom(cmdtype, Bits(data[0])), data)
    ensures |c.slots.alloc| == MSGMAX && c.slots.nextid <= MSGMAX
    ensures ReCreateMessage(c, cmdtype, data, id).0 ==
      if !(1 <= id < c.slots.nextid) then Err(EbadId)
      else if cmdtype & 0xF !in {RT2BC, BC2RT, RT2RT, MODE, BRD_RCV, BRD_RT2RT, BRD_MODE, MINOR_FRAME} then Err(Einval)
      else if !RightDirection(cmdtype & 0xF, data) then Err(EbadCommandWord)
      else if c.slots.alloc[id] + 1 + ReCreatedRoom(cmdtype, Bits(data[0])) >
              (if id + 1 == c.slots.nextid then c.slots.nextmsg else c.slots.alloc[id + 1]) then Err(Msg2Big)
      else Ok(())
  {
    hide Sound, AllocOk, KindChecked, RightDirection, ReCreatedRoom, Bits, WithReCreated;
    SoundShape(c);
    KindAnswers(cmdtype & 0xF, data);
  }

  /** A message re-created holds all of the type asked for and the new words, and nothing else has changed. */
  lemma ReCreateHolds(c: Card, cmdtype: bv16, data: seq<Word>, id: int)
    requires Sound(c) && |data| >= 2 && Supplied(ReCreatedRoom(cmdtype, Bits(data[0])), data)
    requires ReCreateMessage(c, cmdtype, data, id).0.Ok?
    ensures var c', size := ReCreateMessage(c, cmdtype, data, id).1, ReCreatedRoom(cmdtype, Bits(data[0]));
      && InMem(c, id) && id < |c.types| && Holds(c', id, Val(cmdtype), data[..size])
      && SameOutside(c.mem, c'.mem, c.slots.alloc[id], c.slots.alloc[id] + 1 + size)
      && c' == c.(slots := c'.slots, mem := c'.mem, types := c.types[id := cmdtype])
      && c'.slots == c.slots.(extent := c.slots.extent[id := 1 + size], spilled := c'.slots.spilled)
  {
    hide Sound, AllocOk, KindChecked, ReCreatedRoom, Put, InOneBlock, Bits, Val;
    SoundShape(c);
    LiveSlot(c, id);
    var size := ReCreatedRoom(cmdtype, Bits(data[0]));
    NextPtrIsLimit(c.slots, id, 1 + size);
    PutHolds(c.mem, c.slots.alloc[id], [Val(cmdtype)] + data[..size]);
  }

  /** Every other message is as it was. */
  lemma ReCreateLeavesOthers(c: Card, cmdtype: bv16, data: seq<Word>, id: int, other: nat)
    requires Sound(c) && |data| >= 2 && Supplied(ReCreatedRoom(cmdtype, Bits(data[0])), data)
    requires ReCreateMessage(c, cmdtype, data, id).0.Ok? && Live(c.slots, other) && other != id
    ensures Untouched(c, ReCreateMessage(c, cmdtype, data, id).1, other)
  {
    hide Sound, AllocOk, ReCreatedRoom, Bits, Val, ReCreateMessage, Limit, Recorded, RightDirection, Holds, SameOutside;
    ReCreateAnswers(c, cmdtype, data, id);
    ReCreateHolds(c, cmdtype, data, id);
    SoundShape(c);
    LiveSlot(c, id);
    LiveSlot(c, other);
    var c', size := ReCreateMessage(c, cmdtype, data, id).1, ReCreatedRoom(cmdtype, Bits(data[0]));
    assert c.slots.alloc[id] + 1 + size <= NextPtr(c.slots, id);
    NextPtrIsLimit(c.slots, id, 1 + size);
    OthersApart(c.slots, id, 1 + size, other);
    SameSlot(c.mem, c'.mem, c.slots.alloc[id], c.slots.alloc[id] + 1 + size,
             c.slots.alloc[other], c.slots.extent[other]);
  }

  lemma SameSlot(mem: seq<Word>, mem': seq<Word>, lo: nat, hi: nat, at: nat, n: nat)
    requires SameOutside(mem, mem', lo, hi) && at + n <= |mem| && (at + n <= lo || hi <= at)
    ensures |mem'| == |mem| && mem'[at..at + n] == mem[at..at + n]
  {
  }

  /** Reading after re-creating: the new words, if the message has the room that its reading takes. */
  lemma ReadAfterReCreate(c: Card, cmdtype: bv16, data: seq<Word>, id: int)
    requires Sound(c) && |data| >= 2 && Supplied(ReCreatedRoom(cmdtype, Bits(data[0])), data)
    requires ReCreateMessage(c, cmdtype, data, id).0.Ok? && Covered(ReCreateMessage(c, cmdtype, data, id).1, id)
    ensures var kind := cmdtype & 0xF;
      && Words(kind, Bits(data[0])) <= |data|
      && ReadsAs(ReCreateMessage(c, cmdtype, data, id).1, id, kind, data[..Words(kind, Bits(data[0]))])
  {
    hide Sound, ReCreateMessage, ReCreatedRoom, Bits, Words, Room, Val, Covered, ReadsAs, RightDirection, Holds;
    var c', size := ReCreateMessage(c, cmdtype, data, id).1, ReCreatedRoom(cmdtype, Bits(data[0]));
    ReCreateAnswers(c, cmdtype, data, id);
    ReCreateHolds(c, cmdtype, data, id);
    ReCreateKeeps(c, cmdtype, data, id);
    CoveredIsLong(c', id, data[..size], Val(cmdtype));
    HeldReadsAs(c', id, cmdtype, data[..size]);
    var n := Words(cmdtype & 0xF, Bits(data[0]));
    assert data[..size][..n] == data[..n];
  }

  lemma CoveredIsLong(c: Card, id: nat, data: seq<Word>, control: Word)
    requires Covered(c, id) && Holds(c, id, control, data)
    ensures |data| >= 1
  {
    LongestMessage(KindOf(c, id), CommandOf(c, id));
  }

  lemma HeldReadsAs(c: Card, id: nat, cmdtype: bv16, data: seq<Word>)
    requires Sound(c) && Covered(c, id) && c.types[id] == cmdtype && Holds(c, id, Val(cmdtype), data) && |data| >= 1
    requires Known(cmdtype & 0xF) || cmdtype & 0xF == MINOR_FRAME
    ensures var kind := cmdtype & 0xF;
      Words(kind, Bits(data[0])) <= |data| && ReadsAs(c, id, kind, data[..Words(kind, Bits(data[0]))])
  {
    hide Sound, Bits, Words, Room, Val, Known;
    CoveredSlot(c, id);
    KindHeld(cmdtype);
    HeldWords(c.mem, c.slots.alloc[id], Val(cmdtype), data, Words(KindOf(c, id), CommandOf(c, id)));
  }

  lemma HeldWords(mem: seq<Word>, at: nat, control: Word, data: seq<Word>, n: nat)
    requires at + 1 + |data| <= |mem| && mem[at..at + 1 + |data|] == [control] + data && 1 <= |data| && n <= |data|
    ensures mem[at] == control && mem[at + 1] == data[0] && mem[at + 1..at + 1 + n] == data[..n]
  {
    var words := mem[at..at + 1 + |data|];
    assert mem[at] == words[0] && mem[at + 1] == words[1];
    forall i | 0 <= i < n ensures mem[at + 1 + i] == data[i] {
      assert mem[at + (1 + i)] == words[1 + i] == ([control] + data)[1 + i];
    }
  }

  lemma KindHeld(cmdtype: bv16)
    requires Known(cmdtype & 0xF) || cmdtype & 0xF == MINOR_FRAME
    ensures Known(KindIn(Val(cmdtype), cmdtype)) ==> KindIn(Val(cmdtype), cmdtype) == cmdtype & 0xF
  {
    BitsOfVal(cmdtype);
    hide Bits, Val;
  }

  // ---- Altering and reading ----

  /** Altering writes the new words behind the command words, as many as the message has room for, and nothing else. */
  lemma AlterOutcome(c: Card, id: int, data: seq<Word>)
    requires Live(c.slots, id) ==> LiveAt(c, id) && (KindOf(c, id) in {JUMP, MINOR_FRAME} || Alterable(c, id, data))
    ensures var (r, c') := AlterMessage(c, id, data);
      && r == (if !Live(c.slots, id) then Err(EbadId) else if KindOf(c, id) == JUMP then Err(Ejump)
               else if KindOf(c, id) == MINOR_FRAME then Err(EminorFrame) else Ok(()))
      && c' == c.(mem := c'.mem) && (r.Err? ==> c' == c)
      && (r.Ok? ==>
            && InReach(c, id) && Commands(KindOf(c, id)) <= Room(KindOf(c, id), CommandOf(c, id))
            && var lo := c.slots.alloc[id] + 1 + Commands(KindOf(c, id));
            && var hi := c.slots.alloc[id] + 1 + Room(KindOf(c, id), CommandOf(c, id));
            && hi - lo <= |data| && hi <= |c'.mem| && c'.mem[lo..hi] == data[..hi - lo]
            && SameOutside(c.mem, c'.mem, lo, hi))
  {
    hide KindOf, CommandOf, Put;
    if AlterMessage(c, id, data).0.Ok? {
      var n := AlteredWords(KindOf(c, id), CommandOf(c, id));
      PutHolds(c.mem, c.slots.alloc[id] + 1 + Commands(KindOf(c, id)), data[..n]);
    }
  }

  /** Only the address fields of one command word change, of any live message. */
  lemma AlterCommandOutcome(c: Card, id: int, rt: bv16, sa: bv16)
    requires Live(c.slots, id) ==> LiveAt(c, id) && c.slots.alloc[id] + 1 < |c.mem|
    ensures var (r, c') := AlterCommand(c, id, rt, sa);
      && r == (if !Live(c.slots, id) then Err(EbadId) else if rt > 32 || sa > 32 then Err(Einval) else Ok(()))
      && (r.Err? ==> c' == c)
      && (r.Ok? ==>
            var at := c.slots.alloc[id] + 1;
            && c' == c.(mem := c'.mem) && SameOutside(c.mem, c'.mem, at, at + 1)
            && var w, w' := CommandOf(c, id), CommandOf(c', id);
            && w' & 0x041f == w & 0x041f
            && w' >> 11 == (if rt == 32 then w >> 11 else rt)
            && (w' >> 5) & 0x1f == (if sa == 32 then (w >> 5) & 0x1f else sa))
  {
    hide Bits, Val, AlteredCommand;
    if AlterCommand(c, id, rt, sa).0.Ok? {
      AlteredBits(CommandOf(c, id), rt, sa);
      BitsOfVal(AlteredCommand(CommandOf(c, id), rt, sa));
    }
  }

  lemma AlteredBits(w: bv16, rt: bv16, sa: bv16)
    requires rt <= 32 && sa <= 32
    ensures var w' := AlteredCommand(w, rt, sa);
      && w' & 0x041f == w & 0x041f && w' >> 11 == (if rt == 32 then w >> 11 else rt)
      && (w' >> 5) & 0x1f == if sa == 32 then (w >> 5) & 0x1f else sa
  {
  }

  /** Reading hands out the words behind the control word, or of a jump the first two; why not, if not. */
  lemma ReadOutcome(c: Card, id: int)
    requires Live(c.slots, id) ==> LiveAt(c, id) && (KindOf(c, id) == MINOR_FRAME || ReadableAt(c, id))
    ensures var r := ReadMessage(c, id);
      && (r.Err? ==> r == if !Live(c.slots, id) then Err(EbadId) else Err(EminorFrame))
      && (r.Err? <==> !Live(c.slots, id) || KindOf(c, id) == MINOR_FRAME)
      && (r.Ok? ==>
            && ReadableAt(c, id)
            && var first := if KindOf(c, id) == JUMP then 0 else 1;
            && var n := if KindOf(c, id) == JUMP then 2 else Words(KindOf(c, id), CommandOf(c, id));
            && |r.value| == n && c.slots.alloc[id] + first + n <= |c.mem|
            && forall i :: 0 <= i < n ==> r.value[i] == c.mem[c.slots.alloc[id] + first + i])
  {
    hide KindOf, CommandOf, Words, Room;
    if Live(c.slots, id) && KindOf(c, id) !in {MINOR_FRAME, JUMP} { LongestMessage(KindOf(c, id), CommandOf(c, id)); }
  }

  // ---- The control word ----

  /** A skipped message gets its recorded type back, and nothing else changes; why not, if not. */
  lemma RestoreOutcome(c: Card, id: int, msgtype: bv16)
    requires Sound(c)
    ensures Live(c.slots, id) ==> LiveAt(c, id)
    ensures var (r, c') := Restore(c, id, msgtype);
      && r == (if !Live(c.slots, id) then Err(EbadId)
               else if msgtype >= 7 || msgtype != c.types[id] then Err(Einval)
               else if ControlOf(c, id) & 0xF != 7 then Err(EnoSkip) else Ok(()))
      && (r.Err? ==> c' == c)
      && (r.Ok? ==>
            && OnlyControl(c, c', id)
            && Unpack(ControlOf(c', id)) == Unpack(ControlOf(c, id)).(command := msgtype))
  {
    hide Sound, SetControl, Unpack, ControlOf, Bits;
    if Live(c.slots, id) {
      LiveIsAt(c, id);
      ControlAfter(c, id, Command(msgtype));
    }
    if Restore(c, id, msgtype).0.Ok? {
      TypeIsLegal(msgtype);
      SetControlKeeps(c, id, Command(msgtype));
    }
  }

  // ---- Frames and their entries ----

  /** Line i names a live message, its entry fits on the stack, and the table of frames is not full. */
  predicate LineGood(c: Card, lines: seq<Line>, i: nat)
    requires i < |lines|
  {
    lines[i].id < c.slots.nextid && c.nextstack + 4 * (i + 1) <= 0x1a00 && |c.frames| < 20
  }

  /** A frame is accepted just if all its lines are good, and gets the next number; else the first bad line says why. */
  lemma FrameAnswers(c: Card, lines: seq<Line>, nios250: bool)
    requires Sound(c) && Terminated(lines) && (LineCount(lines) == 0 ==> |c.frames| < MAXFRAMES)
    ensures var r, n := CreateFrame(c, lines, nios250).0, LineCount(lines);
      && (r.Ok? <==> forall i :: 0 <= i < n ==> LineGood(c, lines, i)) && (r.Ok? ==> r.value == |c.frames|)
      && forall i :: 0 <= i < n && !LineGood(c, lines, i) && (forall k :: 0 <= k < i ==> LineGood(c, lines, k)) ==>
           r == if lines[i].id >= c.slots.nextid then Err(FrmBadId)
                else if c.nextstack + 4 * (i + 1) > 0x1a00 then Err(FrmNoStackSp) else Err(FrmMaxFrame)
  {
    hide Sound, WithEntries;
    var n, good := LineCount(lines), GoodLines(c, lines, 0);
    forall i | 0 <= i < n ensures LineGood(c, lines, i) <==> LineFault(c, lines, i).Ok? {}
    forall i | 0 <= i < n && !LineGood(c, lines, i) && (forall k :: 0 <= k < i ==> LineGood(c, lines, k))
      ensures i == good
    {
      assert good < n && LineFault(c, lines, good).Err?;
    }
  }

  /**
   The four words of an entry: its message's byte address; its gap time and multiplier, which stand for the time
   asked for as far as the board can tell it; and no status.
   */
  lemma EntryHolds(c: Card, lines: seq<Line>, nios250: bool, k: nat)
    requires Sound(c) && Terminated(lines) && (LineCount(lines) == 0 ==> |c.frames| < MAXFRAMES)
    requires CreateFrame(c, lines, nios250).0.Ok? && k < LineCount(lines) && lines[k].gaptime <= TimeCodes.MAX_IMG
    ensures var mem, at, gap := CreateFrame(c, lines, nios250).1.mem, c.nextstack + 4 * k, lines[k].gaptime;
      && 0 < lines[k].id < |c.slots.alloc| && at + 3 < |mem|
      && mem[at] == 2 * c.slots.alloc[lines[k].id] && mem[at + 2] <= 0x1FFF && mem[at + 3] == 0
      && TimeCodes.StandsFor(mem[at + 1], mem[at + 2], gap, nios250)
  {
    hide Sound, CreateFrame, Entry, TimeCodes.StandsFor, LineFault;
    FrameHoldsLines(c, lines, nios250, k);
    var mem, at := CreateFrame(c, lines, nios250).1.mem, c.nextstack + 4 * k;
    var e := Entry(c.slots.alloc[lines[k].id], lines[k].gaptime, nios250);
    assert mem[at] == mem[at..at + 4][0] && mem[at + 1] == mem[at..at + 4][1] && mem[at + 2] == mem[at..at + 4][2]
        && mem[at + 3] == mem[at..at + 4][3];
    EntryTimes(c.slots.alloc[lines[k].id], lines[k].gaptime, nios250);
  }

  lemma EntryTimes(address: nat, gap: nat, nios250: bool)
    requires address < 0x8000 && gap <= TimeCodes.MAX_IMG
    ensures var e := Entry(address, gap, nios250);
      e[2] <= 0x1FFF && TimeCodes.StandsFor(e[1], e[2], gap, nios250)
  {
    hide TimeCodes.StandsFor, TimeCodes.UnitsPerGap, TimeCodes.Quarters;
    TimeCodes.GapStandsFor(gap, nios250);
  }

  /** The status of an entry, or why there is none; byte 8k + 6 of the frame is all that may change. */
  lemma StatusOutcome(c: Card, frameid: int, msgentry: int)
    requires Sound(c)
    ensures var (r, c') := EntryStatus(c, frameid, msgentry);
      if !(0 <= frameid < |c.frames|) then r == Err(FrmErange) && c' == c
      else if msgentry < 0 then r == Err(Einval) && c' == c
      else if msgentry >= c.frames[frameid].msgcnt then r == Err(FrmErangeCnt) && c' == c
      else
        var at := c.frames[frameid].frameptr / 2 + 4 * msgentry + 3;
        && at < |c.mem| && r == Ok(c.mem[at])
        && c' == c.(mem := c.mem[at := if c.mem[at] == 0x7F00 then 0x7F00 else 0])
  {
    EntryStatusKeeps(c, frameid, msgentry);
    hide Sound;
  }

  // ---- Starting frames, jumps, clearing ----

  /**
   The pointer register gets the frame, the counter how many messages, its two bytes exchanged; nothing else
   changes.
   */
  lemma StartOutcome(c: Card, frameid: int, nummsgs: int)
    requires Sound(c)
    ensures var (r, c') := StartFrame(c, frameid, nummsgs);
      if !(0 <= frameid < |c.frames|) then r == Err(FrmErange) && c' == c
      else if nummsgs > c.frames[frameid].msgcnt then r == Err(FrmErangeCnt) && c' == c
      else
        var f := c.frames[frameid];
        var n := if nummsgs == 0 then f.msgcnt else nummsgs;
        && r.Ok? && 8 * r.value == f.frameptr && c' == c.(mem := c'.mem) && |c'.mem| == |c.mem| == 0x8000
        && c'.mem[0x1ff8] == f.frameptr
        && c'.mem[0x1ff5] / 0x100 == n % 0x100 && c'.mem[0x1ff5] % 0x100 == n / 0x100 % 0x100
        && forall k :: 0 <= k < 0x8000 && k !in {0x1ff5, 0x1ff8} ==> c'.mem[k] == c.mem[k]
  {
    SoundShape(c);
    StartKeeps(c, frameid, nummsgs);
    hide Sound, Short, Swapped;
    if 0 <= frameid < |c.frames| && nummsgs <= c.frames[frameid].msgcnt {
      SwappedBytes(if nummsgs == 0 then c.frames[frameid].msgcnt else nummsgs);
    }
  }

  lemma SwappedBytes(n: int)
    ensures Swapped(n) / 0x100 == n % 0x100 && Swapped(n) % 0x100 == n / 0x100 % 0x100
  {
    TwoBytes(n / 0x100 / 0x100, n / 0x100 % 0x100, n % 0x100);
  }

  lemma TwoBytes(rest: int, high: nat, low: nat)
    requires high < 0x100 && low < 0x100
    ensures (0x10000 * rest + 0x100 * high + low) % 0x10000 == 0x100 * high + low
    ensures (0x100 * high + low) / 0x100 == high
    ensures (high + low * 0x100) / 0x100 == low && (high + low * 0x100) % 0x100 == high
  {
  }

  /** Which calls of Set_Jump succeed; a refused one changes nothing. */
  lemma JumpAnswers(c: Card, curstack: Option<nat>, id: int, frameid: int, intcnt: int)
    requires Sound(c) && JumpFits(c, id) && (curstack.Some? ==> curstack.value <= STACK_ENTRIES)
    ensures |c.mem| == 0x8000 && (Live(c.slots, id) ==> id < |c.slots.alloc|)
    ensures var (r, c') := JumpTo(c, curstack, id, frameid, intcnt);
      && (r.Err? ==> c' == c)
      && r == (if !(1 <= id < c.slots.nextid) then Err(EbadId)
               else if !(0 <= frameid < |c.frames|) then Err(FrmErange)
               else if intcnt > c.frames[frameid].msgcnt then Err(FrmErangeCnt)
               else if curstack.Some? && c.mem[match Looked(Pointers(c.mem), curstack, 2 * c.slots.alloc[id])
                                               case Some(e) => 4 * e + 3 case None => 0x1a03] == 0x7F00
               then Err(EnoAlter) else Ok(()))
  {
    hide Sound, AllocOk, Recorded, Limit, WithJump, StatusLooked, Pointers, Checked, Listed;
    SoundShape(c);
    if Live(c.slots, id) {
      LiveSlot(c, id);
      if curstack.Some? {
        CheckedWord(c.mem, curstack.value, 2 * c.slots.alloc[id]);
      } else {
        NeverStarted(c.mem, 2 * c.slots.alloc[id]);
      }
    }
  }

  /** Before any frame was started there is nothing to check. */
  lemma NeverStarted(mem: seq<Word>, address: nat)
    requires PAST_STACK < |mem|
    ensures Checked(mem, None, address) == (false, mem)
  {
  }

  /** A new card has no messages and no frames, and the first message will be at the start of block 1. */
  lemma NewOutcome(p: Processor, mem: seq<Word>)
    requires |mem| == DPRAM_WORDS
    ensures var c := NewCard(p, mem);
      && (forall id :: !Live(c.slots, id)) && c.slots.nextid == 1 && c.slots.block == 1 && c.slots.nextmsg == 0x2000
      && c.slots.p == p && c.frames == [] && c.nextstack == 0 && c.mem == mem
  {
  }

  /** Clearing the card forgets messages and frames, clearing the frames only these; memory stays as it is. */
  lemma ClearOutcome(c: Card)
    requires Sound(c)
    ensures var c' := ClearCard(c);
      && (forall id :: !Live(c'.slots, id)) && c'.slots.nextid == 1 && c'.slots.block == 1 && c'.slots.nextmsg == 0x2000
      && c'.frames == [] && c'.nextstack == 0 && c'.mem == c.mem && c'.types == c.types && c'.slots.p == c.slots.p
    ensures var c' := ClearFrame(c);
      && c'.frames == [] && c'.nextstack == 0 && c'.slots == c.slots && c'.mem == c.mem && c'.types == c.types
  {
    hide Sound;
  }

  /** A cleared card takes any message again, as its first and at the start of the messages. */
  lemma ClearedTakesAny(c: Card, expanded: bool, cmdtype: bv16, data: seq<Word>)
    requires Sound(c) && |data| >= 2 && Supplied(RoomFor(cmdtype, data), data)
    requires (Known(cmdtype) || cmdtype == MINOR_FRAME) && RightDirection(cmdtype, data)
    ensures Sound(ClearCard(c))
    ensures var (r, c') := CreateMessage(ClearCard(c), expanded, cmdtype, data);
      r == Ok(1) && |c'.slots.alloc| > 1 && c'.slots.alloc[1] == 0x2000
  {
    hide Sound, RightDirection, CreateMessage, Room, Bits, ClearCard;
    ClearKeeps(c);
    ClearOutcome(c);
    LongestMessage(cmdtype, Bits(data[0]));
    assert RoomIn(ClearCard(c).slots, 1, 1 + RoomOf(cmdtype, data));
    CreateAnswers(ClearCard(c), expanded, cmdtype, data);
    var n := CreateHolds(ClearCard(c), expanded, cmdtype, data);
  }
}
