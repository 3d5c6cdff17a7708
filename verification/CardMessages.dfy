/**
 Altering and reading messages and setting their control words, as functions of the card's state:
 what they keep, and what they undo or read back.
 */
module CardMessages {
  import opened MessageLayout
  import opened MessageAllocator
  import opened FrameStack
  import opened CardState

  function WithMem(c: Card, mem: seq<Word>): Card { c.(mem := mem) }

  // ---- Altering ----

  /** How many words Alter_Message takes: all of the slot after the command words. */
  function AlteredWords(kind: bv16, command: bv16): nat { Room(kind, command) - Commands(kind) }

  /** All that the library takes for the message lies in memory. */
  predicate InReach(c: Card, id: int)
  {
    && LiveAt(c, id) && c.slots.alloc[id] + 1 < |c.mem|
    && c.slots.alloc[id] + 1 + Room(KindOf(c, id), CommandOf(c, id)) <= |c.mem|
  }

  /** It is in memory, and the caller's array holds what will be written. */
  predicate Alterable(c: Card, id: int, data: seq<Word>)
  {
    InReach(c, id) && |data| >= AlteredWords(KindOf(c, id), CommandOf(c, id))
  }

  /** Alter_Message, in Bus Controller mode. */
  function AlterMessage(c: Card, id: int, data: seq<Word>): (Result<()>, Card)
    requires Live(c.slots, id) ==> LiveAt(c, id) && (KindOf(c, id) in {JUMP, MINOR_FRAME} || Alterable(c, id, data))
  {
    if !Live(c.slots, id) then (Err(EbadId), c)
    else if KindOf(c, id) == JUMP then (Err(Ejump), c)
    else if KindOf(c, id) == MINOR_FRAME then (Err(EminorFrame), c)
    else
      hide Room, KindOf, CommandOf;
      (Ok(()), WithMem(c, Put(c.mem, c.slots.alloc[id] + 1 + Commands(KindOf(c, id)),
                              data[..AlteredWords(KindOf(c, id), CommandOf(c, id))])))
  }

  predicate LiveAt(c: Card, id: int)
  {
    Live(c.slots, id) && id < |c.slots.alloc| && id < |c.types| && c.slots.alloc[id] < |c.mem|
  }

  lemma LiveIsAt(c: Card, id: int)
    requires Sound(c) && Live(c.slots, id)
    ensures LiveAt(c, id)
  {
    LiveSlot(c, id);
  }

  /** A covered message's words all lie before the next message. */
  lemma CoveredSlot(c: Card, id: int)
    requires Sound(c) && Covered(c, id)
    ensures LiveAt(c, id) && |c.slots.alloc| == |c.slots.extent| == MSGMAX && c.slots.nextid <= MSGMAX
    ensures KindOf(c, id) !in {JUMP, MINOR_FRAME}
    ensures BLOCK1 <= c.slots.alloc[id] && 1 <= Commands(KindOf(c, id)) <= Words(KindOf(c, id), CommandOf(c, id))
    ensures c.slots.alloc[id] + 1 + Room(KindOf(c, id), CommandOf(c, id)) <= c.slots.alloc[id] + c.slots.extent[id]
    ensures c.slots.alloc[id] + c.slots.extent[id] <= Limit(c.slots, id) <= |c.mem|
    ensures Words(KindOf(c, id), CommandOf(c, id)) <= Room(KindOf(c, id), CommandOf(c, id))
    ensures Commands(KindOf(c, id)) < Room(KindOf(c, id), CommandOf(c, id))
  {
    LiveSlot(c, id);
  }

  lemma AlterKeeps(c: Card, id: int, data: seq<Word>)
    requires Sound(c) && Covered(c, id) && |data| >= AlteredWords(KindOf(c, id), CommandOf(c, id))
    requires KindOf(c, id) != MINOR_FRAME
    ensures var c' := AlterMessage(c, id, data).1;
      && Sound(c') && Covered(c', id) && KindOf(c', id) == KindOf(c, id) && CommandOf(c', id) == CommandOf(c, id)
      && (forall other :: 1 <= other < c.slots.nextid && other != id ==>
            InMem(c, other) && InMem(c', other) && SlotWords(c', other) == SlotWords(c, other))
  {
    hide Sound, Put, Room, Known, Limit, SlotWords, Words, Commands, KindIn, Bits;
    CoveredSlot(c, id);
    var at, n := c.slots.alloc[id] + 1 + Commands(KindOf(c, id)), AlteredWords(KindOf(c, id), CommandOf(c, id));
    var c' := WithMem(c, Put(c.mem, at, data[..n]));
    OwnWriteKeepsSound(c, id, at, data[..n]);
    OwnControl(c.mem, at, data[..n], c.slots.alloc[id]);
    OwnControl(c.mem, at, data[..n], c.slots.alloc[id] + 1);
    OthersStay(c, id, at, data[..n]);
  }

  predicate InMem(c: Card, id: nat)
  {
    id < |c.slots.alloc| && id < |c.slots.extent| && c.slots.alloc[id] + c.slots.extent[id] <= |c.mem|
  }

  lemma OthersStay(c: Card, id: nat, at: nat, data: seq<Word>)
    requires Sound(c) && Live(c.slots, id) && |c.slots.alloc| == MSGMAX && c.slots.nextid <= MSGMAX
    requires c.slots.alloc[id] <= at && at + |data| <= Limit(c.slots, id)
    ensures at + |data| <= |c.mem|
    ensures var c' := c.(mem := Put(c.mem, at, data));
      forall other :: 1 <= other < c.slots.nextid && other != id ==>
        InMem(c, other) && InMem(c', other) && SlotWords(c', other) == SlotWords(c, other)
  {
    LiveSlot(c, id);
    SoundShape(c);
    var c' := c.(mem := Put(c.mem, at, data));
    hide Sound;
    forall other | 1 <= other < c.slots.nextid && other != id
      ensures InMem(c, other) && InMem(c', other) && SlotWords(c', other) == SlotWords(c, other)
    {
      OwnWrite(c, id, at, data, other);
    }
  }

  // ---- Reading ----

  /** A skipped jump is read from its control word on. */
  predicate ReadableAt(c: Card, id: int)
  {
    LiveAt(c, id) && if KindOf(c, id) == JUMP then c.slots.alloc[id] + 2 <= |c.mem| else InReach(c, id)
  }

  /** Read_Message, in Bus Controller mode. */
  function ReadMessage(c: Card, id: int): Result<seq<Word>>
    requires Live(c.slots, id) ==> LiveAt(c, id) && (KindOf(c, id) == MINOR_FRAME || ReadableAt(c, id))
  {
    if !Live(c.slots, id) then Err(EbadId)
    else if KindOf(c, id) == MINOR_FRAME then Err(EminorFrame)
    else if KindOf(c, id) == JUMP then Ok(c.mem[c.slots.alloc[id]..c.slots.alloc[id] + 2])
    else
      LongestMessage(KindOf(c, id), CommandOf(c, id));
      hide Room, Words, KindOf, CommandOf;
      Ok(c.mem[c.slots.alloc[id] + 1..c.slots.alloc[id] + 1 + Words(KindOf(c, id), CommandOf(c, id))])
  }

  /** Reading after altering: the command words as they were, then the new words. */
  lemma ReadAfterAlter(c: Card, id: int, data: seq<Word>)
    requires Sound(c) && Covered(c, id) && |data| >= AlteredWords(KindOf(c, id), CommandOf(c, id))
    requires KindOf(c, id) != MINOR_FRAME
    ensures var c' := AlterMessage(c, id, data).1; var k := Commands(KindOf(c, id));
      && Sound(c') && Covered(c', id) && LiveAt(c', id) && KindOf(c', id) != MINOR_FRAME
      && ReadMessage(c, id).Ok? && |ReadMessage(c, id).value| >= k
      && ReadMessage(c', id) == Ok(ReadMessage(c, id).value[..k] + data[..Words(KindOf(c, id), CommandOf(c, id)) - k])
  {
    hide Sound, Put, Room, Words, Known, KindIn, Bits, Commands, KindOf, CommandOf;
    AlterKeeps(c, id, data);
    CoveredSlot(c, id);
    var c' := AlterMessage(c, id, data).1;
    CoveredSlot(c', id);
    var at, k, n := c.slots.alloc[id] + 1, Commands(KindOf(c, id)), AlteredWords(KindOf(c, id), CommandOf(c, id));
    var words := Words(KindOf(c, id), CommandOf(c, id));
    assert c'.mem == Put(c.mem, at + k, data[..n]) && c'.slots == c.slots;
    PutMiddle(c.mem, at, k, data[..n], words);
    assert data[..n][..words - k] == data[..words - k];
  }

  lemma PutMiddle(mem: seq<Word>, at: nat, k: nat, data: seq<Word>, n: nat)
    requires k <= n <= k + |data| && at + k + |data| <= |mem|
    ensures Put(mem, at + k, data)[at..at + n] == mem[at..at + n][..k] + data[..n - k]
  {
    var r := Put(mem, at + k, data)[at..at + n];
    assert forall i :: 0 <= i < k ==> r[i] == mem[at + i];
    assert forall i :: k <= i < n ==> r[i] == data[i - k];
  }

  /** Message id is live, of this kind, and reads as these words. */
  ghost predicate ReadsAs(c: Card, id: nat, kind: bv16, words: seq<Word>)
  {
    && Sound(c) && Covered(c, id) && LiveAt(c, id) && KindOf(c, id) == kind
    && ReadMessage(c, id) == Ok(words)
  }

  /** Reading after creating: what was created, short of the word too many of a broadcast mode command. */
  lemma ReadAfterCreate(c: Card, expanded: bool, cmdtype: bv16, data: seq<Word>)
    requires Sound(c) && |data| >= 2 && Supplied(RoomFor(cmdtype, data), data) && Known(cmdtype)
    requires CreateMessage(c, expanded, cmdtype, data).0.Ok?
    ensures Words(cmdtype, Bits(data[0])) <= |data|
    ensures ReadsAs(CreateMessage(c, expanded, cmdtype, data).1, c.slots.nextid, cmdtype,
                    data[..Words(cmdtype, Bits(data[0]))])
  {
    var size, words := RoomFor(cmdtype, data), Words(cmdtype, Bits(data[0]));
    assert size == Room(cmdtype, Bits(data[0])) && 2 <= words <= size by { LongestMessage(cmdtype, Bits(data[0])); }
    hide Room, Words, RoomFor, CreateMessage, Sound, Bits, AllocOk, Known, IsFirstFit;
    CreateKeeps(c, expanded, cmdtype, data);
    var block := SuccessfulCreate(c, expanded, cmdtype, data);
    WithMessageReadsAs(c, block, cmdtype, data[..size], words);
    assert data[..size][..words] == data[..words];
  }

  lemma WithMessageReadsAs(c: Card, n: nat, cmdtype: bv16, data: seq<Word>, k: nat)
    requires Sound(c) && AllocOk(c.slots) && c.slots.nextid < MSGMAX && FreeAt(c.slots, n) + 1 + |data| <= |c.mem|
    requires Known(cmdtype) && 1 <= k <= |data| && Sound(WithMessage(c, n, cmdtype, data))
    requires |data| == Room(cmdtype, Bits(data[0])) && k == Words(cmdtype, Bits(data[0]))
    ensures ReadsAs(WithMessage(c, n, cmdtype, data), c.slots.nextid, cmdtype, data[..k])
  {
    hide Sound, Room, Words, AllocOk, Known, KindOf, CommandOf, FreeAt, ReadMessage, Bits, WithMessage, Covered;
    CreatedControl(c, n, cmdtype, data);
    CreatedWords(c, n, cmdtype, data, k);
    ReadOf(WithMessage(c, n, cmdtype, data), c.slots.nextid, cmdtype, Bits(data[0]));
  }

  /** A new message lies in one block, and all others are as they were. */
  lemma CreateLeavesOthers(c: Card, expanded: bool, cmdtype: bv16, data: seq<Word>, other: nat)
    requires Sound(c) && |data| >= 2 && Supplied(RoomFor(cmdtype, data), data) && Live(c.slots, other)
    requires CreateMessage(c, expanded, cmdtype, data).0.Ok?
    ensures var c' := CreateMessage(c, expanded, cmdtype, data).1; Untouched(c, c', other)
    ensures var s := CreateMessage(c, expanded, cmdtype, data).1.slots; var id := c.slots.nextid;
      && id < |s.alloc| && id < |s.extent| && id !in s.spilled && InOneBlock(s.p, s.alloc[id], s.extent[id])
  {
    var size := RoomFor(cmdtype, data);
    hide Room, RoomFor, CreateMessage, Sound, Bits, AllocOk, Known, FreeAt, InOneBlock;
    SoundShape(c);
    var n := SuccessfulCreate(c, expanded, cmdtype, data);
    CreateKeepsAlloc(c.slots, n, 1 + size);
    WithMessageLeaves(c, n, cmdtype, data[..size], other);
  }

  /** The words of a message's slot, its place and its recorded type are the same. */
  predicate Untouched(c: Card, c': Card, other: nat)
  {
    && InMem(c, other) && InMem(c', other) && SlotWords(c', other) == SlotWords(c, other)
    && other < |c.types| && other < |c'.types| && c'.types[other] == c.types[other]
    && c'.slots.alloc[other] == c.slots.alloc[other] && c'.slots.extent[other] == c.slots.extent[other]
  }

  lemma WithMessageLeaves(c: Card, n: nat, cmdtype: bv16, data: seq<Word>, other: nat)
    requires Sound(c) && AllocOk(c.slots) && c.slots.nextid < MSGMAX && FreeAt(c.slots, n) + 1 + |data| <= |c.mem|
    requires Live(c.slots, other) && c.slots.alloc[other] + c.slots.extent[other] <= FreeAt(c.slots, n)
    ensures Untouched(c, WithMessage(c, n, cmdtype, data), other)
  {
    hide Sound, AllocOk, FreeAt, Put;
    LiveSlot(c, other);
    SoundShape(c);
    PutElsewhere(c.mem, FreeAt(c.slots, n), NewWords(cmdtype, data), c.slots.alloc[other], c.slots.extent[other]);
  }

  /** A create that fails changes nothing, exactly but for the AMD boards that walk into the missing block. */
  lemma FailedCreateChangesNothing(c: Card, expanded: bool, cmdtype: bv16, data: seq<Word>)
    requires Sound(c) && |data| >= 2 && Supplied(RoomFor(cmdtype, data), data)
    requires CreateMessage(c, expanded, cmdtype, data).0.Err?
    ensures var (r, c') := CreateMessage(c, expanded, cmdtype, data);
      && (c' == c <==> !(r == Err(MsgNoSpace) && Strands(c.slots, expanded)))
      && c'.mem == c.mem && c'.types == c.types && c'.slots.alloc == c.slots.alloc && c'.slots.nextid == c.slots.nextid
      && (r == Err(MsgNoSpace) ==> c.slots.block >= LastBlock(c.slots.p, expanded) || Strands(c.slots, expanded))
  {
    hide CreateMessage, RoomFor, Sound, AllocOk, NoFit, LastBlock;
    FailedCreate(c, expanded, cmdtype, data);
    SoundShape(c);
    assert 1 + RoomFor(cmdtype, data) <= LONGEST by { RoomForFits(cmdtype, data); }
    if CreateMessage(c, expanded, cmdtype, data).0 == Err(MsgNoSpace) {
      FailsOnlyAtTheEnd(c.slots, expanded, 1 + RoomFor(cmdtype, data));
    }
  }

  lemma RoomForFits(cmdtype: bv16, data: seq<Word>)
    requires |data| >= 2
    ensures 1 + RoomFor(cmdtype, data) <= LONGEST
  {
    LongestMessage(cmdtype, Bits(data[0]));
    hide Room, Bits;
  }

  lemma KindErrors(kind: bv16, data: seq<Word>)
    requires |data| >= 2
    ensures KindChecked(kind, data).Err? ==> KindChecked(kind, data).error in {Einval, EbadCommandWord}
  {
  }

  lemma FailedCreate(c: Card, expanded: bool, cmdtype: bv16, data: seq<Word>)
    requires Sound(c) && |data| >= 2 && Supplied(RoomFor(cmdtype, data), data)
    requires CreateMessage(c, expanded, cmdtype, data).0.Err?
    ensures var (r, c') := CreateMessage(c, expanded, cmdtype, data);
      if r == Err(MsgNoSpace) then
        NoFit(c.slots, expanded, 1 + RoomFor(cmdtype, data)) && c' == c.(slots := AfterNoFit(c.slots, expanded))
      else c' == c
  {
    hide RoomFor, Sound, AllocOk, Chosen, KindChecked, AfterNoFit, IsFirstFit, NoFit, FreeAt;
    SoundShape(c);
    KindErrors(cmdtype, data);
    ChosenIsFirstFit(c.slots, expanded, 1 + RoomFor(cmdtype, data));
  }

  lemma ReadOf(c: Card, id: nat, kind: bv16, command: bv16)
    requires Sound(c) && LiveAt(c, id) && c.slots.alloc[id] + 1 < |c.mem| && id < |c.slots.extent|
    requires KindOf(c, id) == kind && CommandOf(c, id) == command && Known(kind)
    requires c.slots.extent[id] == 1 + Room(kind, command)
    ensures Covered(c, id) && InMem(c, id) && c.slots.alloc[id] + 1 + Words(kind, command) <= |c.mem|
    ensures ReadMessage(c, id) == Ok(c.mem[c.slots.alloc[id] + 1..c.slots.alloc[id] + 1 + Words(kind, command)])
  {
    hide Sound, Room, Words, KindOf, CommandOf;
    LiveSlot(c, id);
    CoveredSlot(c, id);
    SoundShape(c);
  }

  /** What a create that succeeds comes down to. */
  lemma SuccessfulCreate(c: Card, expanded: bool, cmdtype: bv16, data: seq<Word>) returns (n: nat)
    requires Sound(c) && |data| >= 2 && Supplied(RoomFor(cmdtype, data), data)
    requires CreateMessage(c, expanded, cmdtype, data).0.Ok?
    ensures AllocOk(c.slots) && c.slots.nextid < MSGMAX && IsFirstFit(c.slots, n, 1 + RoomFor(cmdtype, data))
    ensures FreeAt(c.slots, n) + 1 + RoomFor(cmdtype, data) <= |c.mem|
    ensures CreateMessage(c, expanded, cmdtype, data).1 == WithMessage(c, n, cmdtype, data[..RoomFor(cmdtype, data)])
  {
    hide Room, RoomFor, Sound, Bits, AllocOk, FreeAt, FirstFit, Chosen, BadDirection, IsFirstFit, NoFit, WithMessage;
    SoundShape(c);
    var size := RoomFor(cmdtype, data);
    n := Chosen(c.slots, expanded, 1 + size);
    ChosenIsFirstFit(c.slots, expanded, 1 + size);
  }

  lemma CreatedControl(c: Card, n: nat, cmdtype: bv16, data: seq<Word>)
    requires Sound(c) && AllocOk(c.slots) && c.slots.nextid < MSGMAX && FreeAt(c.slots, n) + 1 + |data| <= |c.mem|
    requires (Known(cmdtype) || cmdtype == MINOR_FRAME) && 1 <= |data|
    ensures var c' := WithMessage(c, n, cmdtype, data); var id := c.slots.nextid;
      && LiveAt(c', id) && c'.slots.alloc[id] + 1 < |c'.mem|
      && KindOf(c', id) == cmdtype && CommandOf(c', id) == Bits(data[0])
  {
    hide AllocOk, FreeAt, Put, KindIn, Known, Sound, Val, Bits;
    SoundShape(c);
    NewIsRecorded(cmdtype);
    FreshWords(c.mem, FreeAt(c.slots, n), Val(0x80 + cmdtype), data, 1);
  }

  lemma CreatedWords(c: Card, n: nat, cmdtype: bv16, data: seq<Word>, k: nat)
    requires Sound(c) && AllocOk(c.slots) && c.slots.nextid < MSGMAX && FreeAt(c.slots, n) + 1 + |data| <= |c.mem|
    requires 1 <= k <= |data|
    ensures var c' := WithMessage(c, n, cmdtype, data); var id := c.slots.nextid;
      && id < |c'.slots.alloc| && id < |c'.slots.extent| && c'.slots.alloc[id] == FreeAt(c.slots, n)
      && c'.slots.p == c.slots.p && c'.slots.nextid == id + 1
      && c'.slots.extent[id] == 1 + |data| && id !in c'.slots.spilled && |c'.mem| == |c.mem|
      && c'.mem[FreeAt(c.slots, n) + 1..FreeAt(c.slots, n) + 1 + k] == data[..k]
  {
    hide AllocOk, FreeAt, Put, Sound, Val;
    SoundShape(c);
    FreshWords(c.mem, FreeAt(c.slots, n), Val(0x80 + cmdtype), data, k);
  }

  lemma FreshWords(mem: seq<Word>, at: nat, control: Word, data: seq<Word>, k: nat)
    requires at + 1 + |data| <= |mem| && 1 <= k <= |data|
    ensures var mem' := Put(mem, at, [control] + data);
      mem'[at] == control && mem'[at + 1] == data[0] && mem'[at + 1..at + 1 + k] == data[..k]
  {
    var mem' := Put(mem, at, [control] + data);
    PutAt(mem, at, [control] + data);
    assert mem'[at + 0] == ([control] + data)[0] && mem'[at + 1] == ([control] + data)[1];
    forall i | 0 <= i < k ensures mem'[at + 1..at + 1 + k][i] == data[..k][i] {
      assert mem'[at + (1 + i)] == ([control] + data)[1 + i];
    }
  }

  // ---- Re-creating ----

  /** A message re-created plainly has its room; one with further control bits does unless it has two command words. */
  lemma ReCreatedIsCoveredWhen(c: Card, cmdtype: bv16, data: seq<Word>, id: int)
    requires Sound(c) && |data| >= 2 && Supplied(ReCreatedRoom(cmdtype, Bits(data[0])), data)
    requires ReCreateMessage(c, cmdtype, data, id).0.Ok? && Code(cmdtype) != MINOR_FRAME
    ensures Covered(ReCreateMessage(c, cmdtype, data, id).1, id) <==>
            Known(cmdtype) || Code(cmdtype) !in {RT2RT, BRD_RT2RT}
  {
    var size := ReCreatedRoom(cmdtype, Bits(data[0]));
    hide Sound, ReCreatedRoom, Bits, AllocOk, WithReCreated, Covered, Known, Code, BadDirection;
    SoundShape(c);
    var c' := WithReCreated(c, id, cmdtype, data[..size]);
    ReCreateKeeps(c, cmdtype, data, id);
    RoomIsAtLeast2(cmdtype, Bits(data[0]));
    ReCreatedWords(c, id, cmdtype, data[..size]);
    RoomSuffices(cmdtype, Bits(data[0]));
    LiveSlot(c', id);
    CoveredBy(c', id, Code(cmdtype), Bits(data[0]), size);
  }

  lemma RoomIsAtLeast2(cmdtype: bv16, command: bv16)
    requires Code(cmdtype) != MINOR_FRAME
    ensures ReCreatedRoom(cmdtype, command) >= 2
  {
    assert cmdtype == MINOR_FRAME ==> Code(cmdtype) == MINOR_FRAME;
    hide WordCount, Code;
  }

  lemma RoomSuffices(cmdtype: bv16, command: bv16)
    requires Known(Code(cmdtype))
    ensures Room(Code(cmdtype), command) <= ReCreatedRoom(cmdtype, command) <==>
            Known(cmdtype) || Code(cmdtype) !in {RT2RT, BRD_RT2RT}
  {
    assert Known(cmdtype) ==> Code(cmdtype) == cmdtype;
    assert cmdtype == MINOR_FRAME ==> Code(cmdtype) == MINOR_FRAME;
    hide WordCount, Code;
  }

  lemma CoveredBy(c: Card, id: nat, kind: bv16, command: bv16, size: nat)
    requires LiveAt(c, id) && id < |c.slots.extent| && c.slots.alloc[id] + 1 < |c.mem|
    requires c.slots.alloc[id] + c.slots.extent[id] <= |c.mem|
    requires KindOf(c, id) == kind && CommandOf(c, id) == command && Known(kind) && c.slots.extent[id] == 1 + size
    ensures Covered(c, id) <==> Room(kind, command) <= size
  {
    hide KindOf, CommandOf, Known, Room;
  }

  lemma ReCreatedWords(c: Card, id: nat, cmdtype: bv16, data: seq<Word>)
    requires Sound(c) && AllocOk(c.slots) && Live(c.slots, id) && c.slots.alloc[id] + 1 + |data| <= NextPtr(c.slots, id)
    requires |data| >= 2 && Known(Code(cmdtype))
    ensures var c' := WithReCreated(c, id, cmdtype, data);
      && LiveAt(c', id) && id < |c'.slots.extent| && c'.slots.alloc[id] + 1 < |c'.mem|
      && KindOf(c', id) == Code(cmdtype) && CommandOf(c', id) == Bits(data[0]) && c'.slots.extent[id] == 1 + |data|
  {
    hide Sound, AllocOk, Put, Bits, Known, Val, KindIn, Code, InOneBlock, NextPtr, Limit, Recorded;
    SoundShape(c);
    LiveSlot(c, id);
    NextPtrIsLimit(c.slots, id, 1 + |data|);
    FreshWords(c.mem, c.slots.alloc[id], Val(cmdtype), data, 1);
    KindOfReCreated(cmdtype);
  }

  lemma KindOfReCreated(cmdtype: bv16)
    requires Known(Code(cmdtype))
    ensures KindIn(Val(cmdtype), cmdtype) == Code(cmdtype)
  {
    BitsOfVal(cmdtype);
    hide Bits, Val;
  }

  // ---- The command word and the control word ----

  /** Alter_Cmd, in Bus Controller mode. */
  function AlterCommand(c: Card, id: int, rt: bv16, sa: bv16): (Result<()>, Card)
    requires Live(c.slots, id) ==> LiveAt(c, id) && c.slots.alloc[id] + 1 < |c.mem|
  {
    if !Live(c.slots, id) then (Err(EbadId), c)
    else if rt > 32 || sa > 32 then (Err(Einval), c)
    else (Ok(()), WithMem(c, c.mem[c.slots.alloc[id] + 1 := Val(AlteredCommand(CommandOf(c, id), rt, sa))]))
  }

  lemma OneWord(mem: seq<Word>, at: nat, w: Word)
    requires at < |mem|
    ensures mem[at := w] == Put(mem, at, [w])
  {
  }

  /** The word count, and with it the message's extent, stays; only that word changes. */
  lemma AlterCommandKeeps(c: Card, id: int, rt: bv16, sa: bv16)
    requires Sound(c) && Covered(c, id) && rt <= 32 && sa <= 32
    ensures var c' := AlterCommand(c, id, rt, sa).1;
      && Sound(c') && Covered(c', id) && KindOf(c', id) == KindOf(c, id)
      && CommandOf(c', id) == AlteredCommand(CommandOf(c, id), rt, sa)
      && WordCount(CommandOf(c', id)) == WordCount(CommandOf(c, id))
      && (forall other :: 1 <= other < c.slots.nextid && other != id ==>
            InMem(c, other) && InMem(c', other) && SlotWords(c', other) == SlotWords(c, other))
  {
    hide Sound, Put, Room, Known, SlotWords, AlteredCommand, WordCount, Bits, Val, Limit, KindIn;
    CoveredSlot(c, id);
    var at, w := c.slots.alloc[id] + 1, Val(AlteredCommand(CommandOf(c, id), rt, sa));
    OneWord(c.mem, at, w);
    OwnWriteKeepsSound(c, id, at, [w]);
    OthersStay(c, id, at, [w]);
    AlteredCommandKeepsCount(CommandOf(c, id), rt, sa);
    BitsOfVal(AlteredCommand(CommandOf(c, id), rt, sa));
    SameRoom(KindOf(c, id), CommandOf(c, id), AlteredCommand(CommandOf(c, id), rt, sa));
  }

  lemma SameRoom(kind: bv16, command: bv16, other: bv16)
    requires WordCount(command) == WordCount(other)
    ensures Room(kind, command) == Room(kind, other) && Words(kind, command) == Words(kind, other)
  {
  }

  /** For a minor frame message, whose slot is its control word, it is the next message's control word that changes. */
  lemma AlterCommandSpoilsNext(c: Card, id: int, rt: bv16, sa: bv16)
    requires Sound(c) && Live(c.slots, id) && Live(c.slots, id + 1) && rt <= 32 && sa <= 32
    requires LiveAt(c, id) && LiveAt(c, id + 1) && c.slots.alloc[id + 1] == c.slots.alloc[id] + 1
    ensures var c' := AlterCommand(c, id, rt, sa).1;
      LiveAt(c', id + 1) && ControlOf(c', id + 1) == AlteredCommand(ControlOf(c, id + 1), rt, sa)
  {
    BitsOfVal(AlteredCommand(CommandOf(c, id), rt, sa));
    hide Sound, Bits, Val, AlteredCommand;
  }

  /** A setter of the control word, in Bus Controller mode. */
  function SetControl(c: Card, id: int, s: Setter): (Result<()>, Card)
    requires Sound(c)
  {
    if !Live(c.slots, id) then (Err(EbadId), c)
    else
      LiveSlot(c, id);
      hide Sound;
      (Ok(()), WithMem(c, c.mem[c.slots.alloc[id] := Val(Rewritten(ControlOf(c, id), s))]))
  }

  function ControlOf(c: Card, id: nat): bv16
    requires id < |c.slots.alloc| && c.slots.alloc[id] < |c.mem|
  {
    Bits(c.mem[c.slots.alloc[id]])
  }

  /** Nothing but the control word of one message is different. */
  predicate OnlyControl(c: Card, c': Card, id: nat)
  {
    && LiveAt(c, id) && LiveAt(c', id) && |c'.mem| == |c.mem|
    && c' == c.(mem := c.mem[c.slots.alloc[id] := c'.mem[c.slots.alloc[id]]])
  }

  /** The setter's field is set and the other five fields are as they were, as is every other message. */
  lemma SetControlKeeps(c: Card, id: int, s: Setter)
    requires Sound(c) && Live(c.slots, id) && Legal(s)
    requires s.Command? ==> LiveAt(c, id) && s.code in {SKIP, Code(c.types[id])}
    ensures var c' := SetControl(c, id, s).1;
      && Sound(c') && LiveAt(c, id) && LiveAt(c', id) && c'.types == c.types && c'.slots == c.slots
      && Unpack(ControlOf(c', id)) == Updated(Unpack(ControlOf(c, id)), s)
      && c'.mem == c.mem[c.slots.alloc[id] := c'.mem[c.slots.alloc[id]]]
      && (forall other :: 1 <= other < c.slots.nextid && other != id ==>
            InMem(c, other) && InMem(c', other) && SlotWords(c', other) == SlotWords(c, other))
  {
    LiveSlot(c, id);
    LiveIsAt(c, id);
    hide Sound, Put, SlotWords, Bits, Val, Limit, Rewritten, Unpack, Updated, Legal, Recorded, Code, Known;
    var at, w := c.slots.alloc[id], Val(Rewritten(ControlOf(c, id), s));
    BitsOfVal(Rewritten(ControlOf(c, id), s));
    SetterIsUpdate(ControlOf(c, id), s);
    StillRecorded(c.mem[at], c.types[id], s);
    OneWord(c.mem, at, w);
    OwnWriteKeepsSound(c, id, at, [w]);
    OthersStay(c, id, at, [w]);
  }

  lemma StillRecorded(control: Word, recorded: bv16, s: Setter)
    requires Recorded(control, recorded) && Legal(s) && (s.Command? ==> s.code in {SKIP, Code(recorded)})
    ensures Recorded(Val(Rewritten(Bits(control), s)), recorded)
  {
    hide *;
    var w := Bits(control);
    BitsOfVal(Rewritten(w, s));
    SameCode(w, s);
    RecordedByCode(control, Val(Rewritten(w, s)), recorded);
  }

  /** Only the setter of the command code changes it. */
  lemma SameCode(w: bv16, s: Setter)
    requires Legal(s)
    ensures Code(Rewritten(w, s)) == if s.Command? then s.code else Code(w)
  {
    hide Rewritten, Legal, Code, Unpack;
    SetterIsUpdate(w, s);
    CommandField(w);
    CommandField(Rewritten(w, s));
  }

  lemma RecordedByCode(control: Word, other: Word, recorded: bv16)
    requires Recorded(control, recorded)
    requires Code(Bits(other)) in {SKIP, Code(recorded), Code(Bits(control))}
    ensures Recorded(other, recorded)
  {
    hide Bits, Code, Known;
  }

  lemma CommandField(w: bv16)
    ensures Unpack(w).command == Code(w)
  {
  }

  /** Set_Restore, in Bus Controller mode. */
  function Restore(c: Card, id: int, msgtype: bv16): (Result<()>, Card)
    requires Sound(c)
  {
    if !Live(c.slots, id) then (Err(EbadId), c)
    else
      LiveIsAt(c, id);
      if msgtype >= SKIP || msgtype != c.types[id] then (Err(Einval), c)
      else if Code(ControlOf(c, id)) != SKIP then (Err(EnoSkip), c)
      else SetControl(c, id, Command(msgtype))
  }

  /** Skipping a message and restoring it to its recorded type gives back its control word, and touches nothing else. */
  lemma RestoreUndoesSkipping(c: Card, id: int)
    requires Sound(c) && Live(c.slots, id) && LiveAt(c, id)
    requires c.types[id] < SKIP && Code(ControlOf(c, id)) == c.types[id]
    ensures var skipped := SetControl(c, id, Command(SKIP)).1;
      && Sound(skipped) && Code(SKIP) == SKIP && KindOf(skipped, id) == c.types[id]
      && var (r, c') := Restore(skipped, id, c.types[id]);
      && r == Ok(()) && LiveAt(c', id) && ControlOf(c', id) == ControlOf(c, id)
      && c' == c.(mem := c.mem[c.slots.alloc[id] := c'.mem[c.slots.alloc[id]]])
  {
    LiveIsAt(c, id);
    hide Sound, Rewritten, Bits, Val, Code, SetControl, KindIn, ControlOf, Legal;
    var w, kind := ControlOf(c, id), c.types[id];
    var skipped := SetControl(c, id, Command(SKIP)).1;
    SkipCodes(w, kind);
    SkipIsLegal();
    SetControlKeeps(c, id, Command(SKIP));
    ControlAfter(c, id, Command(SKIP));
    LiveSlot(skipped, id);
    KindOfRecorded(skipped.mem[c.slots.alloc[id]], kind);
    ControlAfter(skipped, id, Command(kind));
  }

  lemma ControlAfter(c: Card, id: int, s: Setter)
    requires Sound(c) && Live(c.slots, id)
    ensures LiveAt(c, id)
    ensures var (r, c') := SetControl(c, id, s);
      && r == Ok(()) && LiveAt(c', id) && ControlOf(c', id) == Rewritten(ControlOf(c, id), s)
      && c' == c.(mem := c.mem[c.slots.alloc[id] := c'.mem[c.slots.alloc[id]]])
  {
    LiveIsAt(c, id);
    hide Sound, Rewritten, Bits, Val;
    BitsOfVal(Rewritten(ControlOf(c, id), s));
  }

  lemma SkipIsLegal()
    ensures Legal(Command(SKIP))
  {
  }

  lemma SkipCodes(w: bv16, recorded: bv16)
    requires recorded < SKIP && Code(w) == recorded
    ensures Code(Rewritten(w, Command(SKIP))) == SKIP && Code(SKIP) == SKIP && Code(recorded) == recorded
    ensures Rewritten(Rewritten(w, Command(SKIP)), Command(recorded)) == w
  {
    RestoreUndoesSkip(w, recorded);
  }

  /** The error bits that Insert_Msg_Err sets: errors in data words, unless the message is all the controller's own. */
  function InjectedBits(kind: bv16, command: bv16, flags: bv16): bv16
  {
    if flags == 0 then 0
    else if kind in {BC2RT, BRD_RCV} || (kind in {MODE, BRD_MODE} && command & 0x1f == 17) then flags
    else flags | DATA_ERR
  }

  lemma InjectedBitsAreLegal(kind: bv16, command: bv16, flags: bv16)
    requires flags & !ERRFLAGS == 0
    ensures Legal(Errors(InjectedBits(kind, command, flags)))
  {
  }
}
