/**
 What the Bus Controller functions of the library make of a card, as functions of the card's state,
 and what these functions keep.
 */
module CardState {
  import opened MessageLayout
  import opened MessageAllocator
  import opened FrameStack

  datatype Error =
    | Emode | EbadCommandWord | Einval | Msg2Many | MsgNoSpace | Msg2Big | EbadId | EminorFrame | Ejump
    | EnoSkip | EnoAlter | EbadChan | FrmBadId | FrmNoStackSp | FrmMaxFrame | FrmErange | FrmErangeCnt

  datatype Result<T> = Ok(value: T) | Err(error: Error)

  function Bits(w: Word): bv16 { w as bv16 }

  function Val(b: bv16): Word { b as int }

  lemma BitsOfVal(b: bv16)
    ensures Bits(Val(b)) == b
  {
  }

  /** Memory with `data` written from word `at` on. */
  function Put(mem: seq<Word>, at: nat, data: seq<Word>): (r: seq<Word>)
    requires at + |data| <= |mem|
    ensures |r| == |mem|
  {
    mem[..at] + data + mem[at + |data|..]
  }

  lemma PutAt(mem: seq<Word>, at: nat, data: seq<Word>)
    requires at + |data| <= |mem|
    ensures forall k :: 0 <= k < |mem| && !(at <= k < at + |data|) ==> Put(mem, at, data)[k] == mem[k]
    ensures forall k :: 0 <= k < |data| ==> Put(mem, at, data)[at + k] == data[k]
    ensures Put(mem, at, data)[at..at + |data|] == data
  {
  }

  /**
   The dual-port RAM and the card's tables.  `entries` names the message that each entry of the
   stack points at.
   */
  datatype Card = Card(slots: Allocator, mem: seq<Word>, types: seq<bv16>, frames: seq<Frame>, nextstack: nat,
                       entries: seq<nat>)

  /** What the library takes a message to be: the control word's code, or the record if it is skipped. */
  function KindIn(control: Word, recorded: bv16): bv16
  {
    var code := Bits(control) & 7;
    if code == SKIP then recorded else code
  }

  /** The control word's command code is SKIP or that of the recorded command type. */
  predicate Recorded(control: Word, recorded: bv16)
  {
    var code := Code(Bits(control));
    (Known(Code(recorded)) || Code(recorded) in {MINOR_FRAME, JUMP}) && (code == SKIP || code == Code(recorded))
  }

  /** So a message whose type was recorded without further bits is known for what it is, skipped or not. */
  lemma KindOfRecorded(control: Word, recorded: bv16)
    requires Recorded(control, recorded) && recorded == Code(recorded) && recorded != JUMP
    ensures KindIn(control, recorded) == recorded
  {
    var bits := Bits(control);
    hide Bits;
    KindOfBits(bits, recorded);
  }

  lemma KindOfBits(bits: bv16, recorded: bv16)
    requires Known(recorded) || recorded == MINOR_FRAME
    requires bits & COMMAND_CODE == SKIP || bits & COMMAND_CODE == recorded
    ensures (if bits & 7 == SKIP then recorded else bits & 7) == recorded
  {
  }

  ghost predicate AllRecorded(mem: seq<Word>, alloc: seq<nat>, types: seq<bv16>, nextid: nat)
    requires nextid <= |alloc| == |types|
  {
    forall id :: 1 <= id < nextid ==> alloc[id] < |mem| && Recorded(mem[alloc[id]], types[id])
  }

  ghost predicate Sound(c: Card)
  {
    && |c.mem| == DPRAM_WORDS && |c.types| == MSGMAX && AllocOk(c.slots)
    && AllRecorded(c.mem, c.slots.alloc, c.types, c.slots.nextid)
    && FramesOk(c.mem[..STACK_WORDS], c.frames, c.nextstack, c.entries, c.slots.alloc, c.slots.nextid)
  }

  /** What can be said of any live message of a sound card. */
  lemma LiveSlot(c: Card, id: int)
    requires Sound(c) && Live(c.slots, id)
    ensures |c.slots.alloc| == |c.slots.extent| == |c.types| == MSGMAX && c.slots.nextid <= MSGMAX
        && |c.mem| == DPRAM_WORDS
    ensures BLOCK1 <= c.slots.alloc[id] && 1 <= c.slots.extent[id]
    ensures c.slots.alloc[id] + c.slots.extent[id] <= Limit(c.slots, id) <= DPRAM_WORDS
    ensures Recorded(c.mem[c.slots.alloc[id]], c.types[id])
  {
  }

  lemma SoundShape(c: Card)
    requires Sound(c)
    ensures |c.mem| == DPRAM_WORDS && |c.types| == |c.slots.alloc| == |c.slots.extent| == MSGMAX
    ensures 1 <= c.slots.nextid <= MSGMAX && |c.frames| <= MAXFRAMES && c.nextstack == 4 * |c.entries| <= STACK_WORDS
    ensures AllocOk(c.slots)
  {
  }

  /** Words written above the stack change nothing for the frames. */
  lemma FramesUnderMessages(c: Card, at: nat, data: seq<Word>, alloc: seq<nat>, nextid: nat)
    requires Sound(c) && BLOCK1 <= at && at + |data| <= DPRAM_WORDS
    requires c.slots.nextid <= nextid <= |alloc| && c.slots.nextid <= |c.slots.alloc|
    requires forall id :: 1 <= id < c.slots.nextid ==> alloc[id] == c.slots.alloc[id]
    ensures |Put(c.mem, at, data)| == DPRAM_WORDS
    ensures FramesOk(Put(c.mem, at, data)[..STACK_WORDS], c.frames, c.nextstack, c.entries, alloc, nextid)
  {
    SoundShape(c);
    var stack' := Put(c.mem, at, data)[..STACK_WORDS];
    assert stack' == c.mem[..STACK_WORDS];
    FramesKept(c.mem[..STACK_WORDS], stack', c.frames, c.nextstack, c.entries, c.slots.alloc, alloc, c.slots.nextid,
               nextid) by {
      hide AllocOk, AllRecorded, FramesOk;
    }
  }

  // ---- Creating ----

  /** The direction bit of a command word that contradicts the kind of message. */
  predicate BadDirection(kind: bv16, data: seq<Word>)
    requires |data| >= 2
  {
    var first, second := Bits(data[0]) & TRANSMIT_BIT != 0, Bits(data[1]) & TRANSMIT_BIT != 0;
    || (kind in {BRD_RCV, BC2RT} && first)
    || (kind == RT2BC && !first)
    || (kind in {RT2RT, BRD_RT2RT} && (first || !second))
  }

  function KindChecked(kind: bv16, data: seq<Word>): Result<()>
    requires |data| >= 2
  {
    if !Known(kind) && kind != MINOR_FRAME then Err(Einval)
    else if BadDirection(kind, data) then Err(EbadCommandWord) else Ok(())
  }

  function RoomFor(cmdtype: bv16, data: seq<Word>): nat
    requires |data| >= 2
  {
    if Known(cmdtype) then Room(cmdtype, Bits(data[0])) else 0
  }

  /** The caller's array holds all that the library reads of it. */
  predicate Supplied(room: nat, data: seq<Word>) { |data| >= 2 && |data| >= room }

  /** The words of a new message. */
  function NewWords(cmdtype: bv16, data: seq<Word>): (r: seq<Word>)
    ensures |r| == 1 + |data|
  {
    [Val(0x80 + cmdtype)] + data
  }

  function WithMessage(c: Card, n: nat, cmdtype: bv16, data: seq<Word>): Card
    requires Sound(c) && c.slots.nextid < MSGMAX && FreeAt(c.slots, n) + 1 + |data| <= |c.mem|
  {
    c.(slots := AfterCreate(c.slots, n, 1 + |data|), types := c.types[c.slots.nextid := cmdtype],
       mem := Put(c.mem, FreeAt(c.slots, n), NewWords(cmdtype, data)))
  }

  lemma FirstFitHasRoom(c: Card, n: nat, need: nat)
    requires Sound(c) && 1 <= need && IsFirstFit(c.slots, n, need)
    ensures FreeAt(c.slots, n) + need <= |c.mem| && BLOCK1 <= FreeAt(c.slots, n)
  {
    NextIsFree(c.slots, n, need);
  }

  lemma CreateKeepsSound(c: Card, n: nat, cmdtype: bv16, data: seq<Word>)
    requires Sound(c) && c.slots.nextid < MSGMAX && IsFirstFit(c.slots, n, 1 + |data|)
    requires Known(cmdtype) || cmdtype == MINOR_FRAME
    ensures FreeAt(c.slots, n) + 1 + |data| <= |c.mem| && Sound(WithMessage(c, n, cmdtype, data))
  {
    FirstFitHasRoom(c, n, 1 + |data|);
    CreateKeepsAlloc(c.slots, n, 1 + |data|);
    CreateKeepsRecords(c, n, cmdtype, data);
    SoundShape(c);
    FramesUnderMessages(c, FreeAt(c.slots, n), NewWords(cmdtype, data),
                        c.slots.alloc[c.slots.nextid := FreeAt(c.slots, n)],
                        c.slots.nextid + 1);
    hide AllRecorded, FramesOk, AllocOk, Put, FreeAt, IsFirstFit, NewWords;
  }

  lemma CreateKeepsRecords(c: Card, n: nat, cmdtype: bv16, data: seq<Word>)
    requires Sound(c) && c.slots.nextid < MSGMAX && IsFirstFit(c.slots, n, 1 + |data|)
    requires Known(cmdtype) || cmdtype == MINOR_FRAME
    ensures FreeAt(c.slots, n) + 1 + |data| <= |c.mem|
    ensures AllRecorded(Put(c.mem, FreeAt(c.slots, n), NewWords(cmdtype, data)),
                        c.slots.alloc[c.slots.nextid := FreeAt(c.slots, n)],
                        c.types[c.slots.nextid := cmdtype], c.slots.nextid + 1)
  {
    CreateKeepsAlloc(c.slots, n, 1 + |data|);
    PutAt(c.mem, FreeAt(c.slots, n), NewWords(cmdtype, data));
    NewIsRecorded(cmdtype);
    var mem' := Put(c.mem, FreeAt(c.slots, n), NewWords(cmdtype, data));
    assert mem'[FreeAt(c.slots, n) + 0] == Val(0x80 + cmdtype);
    SoundSlots(c);
    hide Recorded, Put, AllocOk, IsFirstFit, FreeAt, InOneBlock, FramesOk;
  }

  lemma SoundSlots(c: Card)
    requires Sound(c)
    ensures |c.slots.alloc| == |c.slots.extent| == MSGMAX && 1 <= c.slots.nextid <= MSGMAX && c.slots.alloc[0] == 0
    ensures forall id :: 1 <= id < c.slots.nextid ==>
      BLOCK1 <= c.slots.alloc[id] && 1 <= c.slots.extent[id] && c.slots.alloc[id] + c.slots.extent[id] <= DPRAM_WORDS
  {
  }

  lemma NewIsRecorded(cmdtype: bv16)
    requires Known(cmdtype) || cmdtype == MINOR_FRAME
    ensures Recorded(Val(0x80 + cmdtype), cmdtype) && KindIn(Val(0x80 + cmdtype), cmdtype) == cmdtype
  {
    BitsOfVal(0x80 + cmdtype);
    hide Bits, Val;
    NewBits(cmdtype);
    KindOfRecorded(Val(0x80 + cmdtype), cmdtype);
  }

  lemma NewBits(cmdtype: bv16)
    requires Known(cmdtype) || cmdtype == MINOR_FRAME
    ensures (0x80 + cmdtype) & COMMAND_CODE == cmdtype && Code(cmdtype) == cmdtype
  {
  }

  function WithRoom(c: Card, n: nat, cmdtype: bv16, data: seq<Word>, expanded: bool): (Result<nat>, Card)
    requires Sound(c) && c.slots.nextid < MSGMAX && n != 0
    requires AllocOk(c.slots) && n == Chosen(c.slots, expanded, 1 + |data|)
  {
    SoundShape(c);
    ChosenIsFirstFit(c.slots, expanded, 1 + |data|);
    (Ok(c.slots.nextid), WithMessage(c, n, cmdtype, data))
  }

  function CreateChecked(c: Card, expanded: bool, cmdtype: bv16, data: seq<Word>): (Result<nat>, Card)
    requires Sound(c) && AllocOk(c.slots) && c.slots.nextid < MSGMAX
  {
    var n := Chosen(c.slots, expanded, 1 + |data|);
    if n != 0 then WithRoom(c, n, cmdtype, data, expanded)
    else (Err(MsgNoSpace), c.(slots := AfterNoFit(c.slots, expanded)))
  }

  /** Create_1553_Message, in Bus Controller mode. */
  function CreateMessage(c: Card, expanded: bool, cmdtype: bv16, data: seq<Word>): (Result<nat>, Card)
    requires Sound(c) && |data| >= 2 && Supplied(RoomFor(cmdtype, data), data)
  {
    if KindChecked(cmdtype, data).Err? then (Err(KindChecked(cmdtype, data).error), c)
    else if c.slots.nextid == MSGMAX then (Err(Msg2Many), c)
    else CreateChecked(c, expanded, cmdtype, data[..RoomFor(cmdtype, data)])
  }

  lemma CreateKeeps(c: Card, expanded: bool, cmdtype: bv16, data: seq<Word>)
    requires Sound(c) && |data| >= 2 && Supplied(RoomFor(cmdtype, data), data)
    ensures Sound(CreateMessage(c, expanded, cmdtype, data).1)
  {
    hide Sound, AllocOk, RoomFor, Chosen, AfterNoFit, IsFirstFit, NoFit, FreeAt, WithMessage, BadDirection, Known;
    SoundShape(c);
    if KindChecked(cmdtype, data).Ok? && c.slots.nextid != MSGMAX {
      var size := RoomFor(cmdtype, data);
      ChosenIsFirstFit(c.slots, expanded, 1 + size);
      var n := Chosen(c.slots, expanded, 1 + size);
      if n != 0 {
        CreateKeepsSound(c, n, cmdtype, data[..size]);
      } else {
        NoFitKeepsSound(c, expanded);
      }
    }
  }

  lemma NoFitKeepsSound(c: Card, expanded: bool)
    requires Sound(c)
    ensures Sound(c.(slots := AfterNoFit(c.slots, expanded)))
  {
    NoFitKeepsAlloc(c.slots, expanded);
    hide AllocOk, AllRecorded, FramesOk;
  }

  // ---- Writing into a message ----

  /** Message id is known for what it is and has the room that takes. */
  predicate Covered(c: Card, id: int)
  {
    && Live(c.slots, id) && id < |c.slots.alloc| && id < |c.slots.extent| && id < |c.types|
    && c.slots.alloc[id] + 1 < |c.mem| && c.slots.alloc[id] + c.slots.extent[id] <= |c.mem|
    && Known(KindOf(c, id)) && 1 + Room(KindOf(c, id), CommandOf(c, id)) <= c.slots.extent[id]
  }

  function KindOf(c: Card, id: nat): bv16
    requires id < |c.slots.alloc| && id < |c.types| && c.slots.alloc[id] < |c.mem|
  {
    KindIn(c.mem[c.slots.alloc[id]], c.types[id])
  }

  function CommandOf(c: Card, id: nat): bv16
    requires id < |c.slots.alloc| && c.slots.alloc[id] + 1 < |c.mem|
  {
    Bits(c.mem[c.slots.alloc[id] + 1])
  }

  /** The words of a message's slot. */
  function SlotWords(c: Card, id: nat): seq<Word>
    requires id < |c.slots.alloc| && id < |c.slots.extent| && c.slots.alloc[id] + c.slots.extent[id] <= |c.mem|
  {
    c.mem[c.slots.alloc[id]..c.slots.alloc[id] + c.slots.extent[id]]
  }

  lemma OthersApart(a: Allocator, id: nat, size: nat, other: nat)
    requires AllocOk(a) && Live(a, id) && Live(a, other) && other != id && a.alloc[id] + size <= Limit(a, id)
    ensures a.alloc[other] + a.extent[other] <= a.alloc[id] || a.alloc[id] + size <= a.alloc[other]
  {
    if other < id {
      SlotsDisjoint(a, other, id);
    } else if id + 1 < other {
      SlotsDisjoint(a, id + 1, other);
    }
  }

  /** Words written between a message's address and the next message leave every other message alone. */
  lemma OwnWrite(c: Card, id: nat, at: nat, data: seq<Word>, other: nat)
    requires Sound(c) && Live(c.slots, id) && Live(c.slots, other) && other != id
    requires c.slots.alloc[id] <= at && at + |data| <= Limit(c.slots, id)
    ensures at + |data| <= |c.mem| && c.slots.alloc[other] + c.slots.extent[other] <= |c.mem|
    ensures SlotWords(c.(mem := Put(c.mem, at, data)), other) == SlotWords(c, other)
    ensures Put(c.mem, at, data)[c.slots.alloc[other]] == c.mem[c.slots.alloc[other]]
  {
    hide Sound, AllocOk, Limit, Recorded, Put;
    LiveSlot(c, id);
    LiveSlot(c, other);
    SoundShape(c);
    OthersApart(c.slots, id, at + |data| - c.slots.alloc[id], other);
    PutElsewhere(c.mem, at, data, c.slots.alloc[other], c.slots.extent[other]);
  }

  lemma PutElsewhere(mem: seq<Word>, at: nat, data: seq<Word>, lo: nat, n: nat)
    requires at + |data| <= |mem| && 1 <= n && lo + n <= |mem| && (lo + n <= at || at + |data| <= lo)
    ensures Put(mem, at, data)[lo..lo + n] == mem[lo..lo + n] && Put(mem, at, data)[lo] == mem[lo]
  {
  }

  lemma OwnWriteKeepsSound(c: Card, id: nat, at: nat, data: seq<Word>)
    requires Sound(c) && Live(c.slots, id)
    requires c.slots.alloc[id] <= at && at + |data| <= Limit(c.slots, id) && data != []
    requires at == c.slots.alloc[id] ==> Recorded(data[0], c.types[id])
    ensures at + |data| <= |c.mem| && Sound(c.(mem := Put(c.mem, at, data)))
  {
    LiveSlot(c, id);
    SoundShape(c);
    var c' := c.(mem := Put(c.mem, at, data));
    FramesUnderMessages(c, at, data, c.slots.alloc, c.slots.nextid);
    forall other | 1 <= other < c.slots.nextid
      ensures c.slots.alloc[other] < |c'.mem| && Recorded(c'.mem[c.slots.alloc[other]], c.types[other])
    {
      LiveSlot(c, other);
      if other != id {
        OwnWrite(c, id, at, data, other);
      } else {
        OwnControl(c.mem, at, data, c.slots.alloc[id]);
      }
    }
    hide AllocOk, Put, Limit, Recorded, FramesOk;
  }

  lemma OwnControl(mem: seq<Word>, at: nat, data: seq<Word>, control: nat)
    requires at + |data| <= |mem| && control <= at && control < |mem| && data != []
    ensures Put(mem, at, data)[control] == if control == at then data[0] else mem[control]
  {
  }

  // ---- Re-creating ----

  /** Where Re_Create_Message takes the next message to begin. */
  function NextPtr(a: Allocator, id: nat): nat
    requires |a.alloc| == MSGMAX && a.nextid <= MSGMAX
  {
    if a.nextid == id + 1 then a.nextmsg else if id + 1 < |a.alloc| then a.alloc[id + 1] else 0
  }

  lemma NextPtrIsLimit(a: Allocator, id: nat, size: nat)
    requires AllocOk(a) && Live(a, id) && 1 <= size && a.alloc[id] + size <= NextPtr(a, id)
    ensures a.alloc[id] + size <= Limit(a, id)
  {
    hide InBlocks;
  }

  function WithReCreated(c: Card, id: nat, cmdtype: bv16, data: seq<Word>): Card
    requires Sound(c) && AllocOk(c.slots) && Live(c.slots, id) && c.slots.alloc[id] + 1 + |data| <= NextPtr(c.slots, id)
  {
    LiveSlot(c, id);
    NextPtrIsLimit(c.slots, id, 1 + |data|);
    c.(slots := AfterReCreate(c.slots, id, 1 + |data|), types := c.types[id := cmdtype],
       mem := Put(c.mem, c.slots.alloc[id], [Val(cmdtype)] + data))
  }

  /** Re_Create_Message, in Bus Controller mode. */
  function ReCreateMessage(c: Card, cmdtype: bv16, data: seq<Word>, id: int): (Result<()>, Card)
    requires Sound(c) && |data| >= 2 && Supplied(ReCreatedRoom(cmdtype, Bits(data[0])), data)
  {
    SoundShape(c);
    hide Sound, AllocOk, BadDirection, ReCreatedRoom;
    if !Live(c.slots, id) then (Err(EbadId), c)
    else if KindChecked(Code(cmdtype), data).Err? then (Err(KindChecked(Code(cmdtype), data).error), c)
    else
      var size := ReCreatedRoom(cmdtype, Bits(data[0]));
      if c.slots.alloc[id] + 1 + size > NextPtr(c.slots, id) then (Err(Msg2Big), c)
      else (Ok(()), WithReCreated(c, id, cmdtype, data[..size]))
  }

  lemma WithReCreatedKeeps(c: Card, id: nat, cmdtype: bv16, data: seq<Word>)
    requires Sound(c) && AllocOk(c.slots) && Live(c.slots, id) && c.slots.alloc[id] + 1 + |data| <= NextPtr(c.slots, id)
    requires Known(Code(cmdtype)) || Code(cmdtype) == MINOR_FRAME
    ensures Sound(WithReCreated(c, id, cmdtype, data))
  {
    LiveSlot(c, id);
    SoundShape(c);
    NextPtrIsLimit(c.slots, id, 1 + |data|);
    ReCreateKeepsAlloc(c.slots, id, 1 + |data|);
    ReCreateMovesNothing(c.slots, id, 1 + |data|);
    ReCreatedIsRecorded(cmdtype);
    SoundWithType(c, id, cmdtype, [Val(cmdtype)] + data);
    hide AllocOk, AllRecorded, FramesOk, Put, AfterReCreate, Limit, Recorded;
  }

  lemma ReCreateKeeps(c: Card, cmdtype: bv16, data: seq<Word>, id: int)
    requires Sound(c) && |data| >= 2 && Supplied(ReCreatedRoom(cmdtype, Bits(data[0])), data)
    ensures Sound(ReCreateMessage(c, cmdtype, data, id).1)
  {
    var size := ReCreatedRoom(cmdtype, Bits(data[0]));
    SoundShape(c);
    hide Sound, AllocOk, WithReCreated, ReCreatedRoom, BadDirection;
    if Live(c.slots, id) && KindChecked(Code(cmdtype), data).Ok?
        && c.slots.alloc[id] + 1 + size <= NextPtr(c.slots, id) {
      WithReCreatedKeeps(c, id, cmdtype, data[..size]);
    }
  }

  lemma ReCreateMovesNothing(a: Allocator, id: nat, size: nat)
    requires AllocOk(a) && Live(a, id)
    ensures var b := AfterReCreate(a, id, size); b.alloc == a.alloc && b.nextid == a.nextid
  {
  }

  lemma ReCreatedIsRecorded(cmdtype: bv16)
    requires Known(Code(cmdtype)) || Code(cmdtype) == MINOR_FRAME
    ensures Recorded(Val(cmdtype), cmdtype)
  {
    BitsOfVal(cmdtype);
  }

  lemma SoundWithType(c: Card, id: nat, cmdtype: bv16, words: seq<Word>)
    requires Sound(c) && Live(c.slots, id) && words != [] && Recorded(words[0], cmdtype)
    requires c.slots.alloc[id] + |words| <= Limit(c.slots, id)
    ensures c.slots.alloc[id] + |words| <= |c.mem|
    ensures var mem' := Put(c.mem, c.slots.alloc[id], words);
      && AllRecorded(mem', c.slots.alloc, c.types[id := cmdtype], c.slots.nextid)
      && FramesOk(mem'[..STACK_WORDS], c.frames, c.nextstack, c.entries, c.slots.alloc, c.slots.nextid)
  {
    LiveSlot(c, id);
    SoundShape(c);
    var at := c.slots.alloc[id];
    FramesUnderMessages(c, at, words, c.slots.alloc, c.slots.nextid);
    var mem', types' := Put(c.mem, at, words), c.types[id := cmdtype];
    forall other | 1 <= other < c.slots.nextid
      ensures c.slots.alloc[other] < |mem'| && Recorded(mem'[c.slots.alloc[other]], types'[other])
    {
      LiveSlot(c, other);
      if other != id {
        OwnWrite(c, id, at, words, other);
      } else {
        OwnControl(c.mem, at, words, at);
      }
    }
    hide AllocOk, Put, Limit, Recorded, FramesOk;
  }
}
