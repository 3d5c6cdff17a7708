/**
 Starting a frame, the check whether a message is being sent, and turning a message into a jump, as
 functions of the card's state, and what these keep.
 */
module CardJumps {
  import opened Common
  import opened MessageLayout
  import opened MessageAllocator
  import opened FrameStack
  import opened CardState
  import opened CardMessages
  import opened CardFrames
  import opened StackScan
  import SetJump

  const FULLFRAME := 0
  const STACK_ENTRIES: nat := STACK_WORDS / ENTRY_WORDS
  /** The word just past the stack that the check may take for a status: bytes 6 and 7 of the RT Active table. */
  const PAST_STACK: nat := STACK_WORDS + 3
  /** The registers that start a frame. */
  const STACK_POINTER: nat := 0x1ff8
  const INSTRUCTION_COUNTER: nat := 0x1ff5

  // ---- Words below the messages ----

  /** Words that are neither a stack entry's first nor a message's may change. */
  lemma LowWriteKeeps(c: Card, at: nat, w: Word)
    requires Sound(c) && at < BLOCK1 && (at % 4 != 0 || STACK_WORDS <= at)
    ensures at < |c.mem| && Sound(WithMem(c, c.mem[at := w]))
  {
    SoundShape(c);
    SoundSlots(c);
    var mem' := c.mem[at := w];
    FramesKept(c.mem[..STACK_WORDS], mem'[..STACK_WORDS], c.frames, c.nextstack, c.entries,
               c.slots.alloc, c.slots.alloc, c.slots.nextid, c.slots.nextid);
    hide Recorded, FramesOk, AllocOk;
  }

  // ---- Starting a frame ----

  /** The instruction counter has its bytes the other way round. */
  function Swapped(n: int): Word { n % 0x10000 / 0x100 + n % 0x100 * 0x100 }

  /** Start_Frame, in Bus Controller mode: the entry that checks will start from, and the two registers. */
  function StartFrame(c: Card, frameid: int, nummsgs: int): (Result<nat>, Card)
    requires Sound(c)
  {
    SoundShape(c);
    hide Sound;
    if !(0 <= frameid < |c.frames|) then (Err(FrmErange), c)
    else if nummsgs > c.frames[frameid].msgcnt then (Err(FrmErangeCnt), c)
    else
      var f := c.frames[frameid];
      (Ok(f.frameptr / 8),
       WithMem(c, c.mem[STACK_POINTER := Short(f.frameptr)]
                       [INSTRUCTION_COUNTER := Swapped(if nummsgs == FULLFRAME then f.msgcnt else nummsgs)]))
  }

  /** The frame begins at that entry of the stack, and the registers touch neither frames nor messages. */
  lemma StartKeeps(c: Card, frameid: int, nummsgs: int)
    requires Sound(c)
    ensures var (r, c') := StartFrame(c, frameid, nummsgs);
      && Sound(c') && (r.Err? ==> c' == c)
      && (r.Ok? ==> 0 <= frameid < |c.frames| && 8 * r.value == c.frames[frameid].frameptr && r.value <= STACK_ENTRIES
                    && c'.mem[STACK_POINTER] == c.frames[frameid].frameptr)
  {
    hide Sound, Swapped, Short, AllocOk;
    SoundShape(c);
    if StartFrame(c, frameid, nummsgs).0.Ok? {
      FrameBegins(c, frameid);
      FrameFits(c, frameid);
      var f := c.frames[frameid];
      LowWriteKeeps(c, STACK_POINTER, Short(f.frameptr));
      LowWriteKeeps(WithMem(c, c.mem[STACK_POINTER := Short(f.frameptr)]), INSTRUCTION_COUNTER,
                    Swapped(if nummsgs == FULLFRAME then f.msgcnt else nummsgs));
    }
  }

  /** A frame begins at a whole entry of the stack, or at its end if it is empty. */
  lemma FrameBegins(c: Card, frameid: nat)
    requires Sound(c) && frameid < |c.frames|
    ensures 8 * (c.frames[frameid].frameptr / 8) == c.frames[frameid].frameptr <= 8 * STACK_ENTRIES
  {
    hide Sound, Tiled, AllocOk;
    SoundShape(c);
    SoundFrames(c);
    var first := FrameAligned(c.frames, c.nextstack, frameid);
    FramesApart(c.frames, c.nextstack, frameid, |c.frames|);
  }

  // ---- The check ----

  /** The first words of all the stack's entries. */
  function Pointers(mem: seq<Word>): (p: seq<nat>)
    requires STACK_WORDS <= |mem|
    ensures |p| == STACK_ENTRIES && forall k :: 0 <= k < STACK_ENTRIES ==> p[k] == mem[4 * k]
  {
    seq(STACK_ENTRIES, k requires 0 <= k < STACK_ENTRIES => mem[4 * k])
  }

  /** The word that Get_Msg_Status takes for the status of the message with this byte address. */
  function StatusLooked(mem: seq<Word>, from: nat, address: nat): (at: nat)
    requires STACK_WORDS <= |mem| && from <= STACK_ENTRIES
    ensures at <= PAST_STACK && at % 4 == 3
  {
    4 * FirstFrom(Pointers(mem), from, address) + 3
  }

  /** BC_Check_Alter_Msg: whether the status says NO_ALTER, and the memory after it; any other status is cleared. */
  function Checked(mem: seq<Word>, curstack: Option<nat>, address: nat): (r: (bool, seq<Word>))
    requires PAST_STACK < |mem| && (curstack.Some? ==> curstack.value <= STACK_ENTRIES)
    ensures |r.1| == |mem|
  {
    if curstack == None then (false, mem)
    else
      var at := StatusLooked(mem, curstack.value, address);
      if mem[at] == NO_ALTER then (true, mem) else (false, mem[at := 0])
  }

  /**
   The one word that changes is the status of the first entry of the message from the started frame on;
   if there is none, it lies past the stack.
   */
  lemma CheckedWord(mem: seq<Word>, from: nat, address: nat)
    requires PAST_STACK < |mem| && from <= STACK_ENTRIES
    ensures var at, (noAlter, mem') := StatusLooked(mem, from, address), Checked(mem, Some(from), address);
      && (noAlter <==> mem[at] == NO_ALTER)
      && mem' == (if noAlter then mem else mem[at := 0])
      && match Looked(Pointers(mem), Some(from), address)
         case Some(e) => at == 4 * e + 3 < STACK_WORDS && Listed(Pointers(mem), address, e)
         case None => at == PAST_STACK && forall e :: from <= e < STACK_ENTRIES ==> !Listed(Pointers(mem), address, e)
  {
  }

  lemma CheckedKeeps(c: Card, curstack: Option<nat>, address: nat)
    requires Sound(c) && PAST_STACK < |c.mem| && (curstack.Some? ==> curstack.value <= STACK_ENTRIES)
    ensures Sound(WithMem(c, Checked(c.mem, curstack, address).1))
  {
    if curstack.Some? { LowWriteKeeps(c, StatusLooked(c.mem, curstack.value, address), 0); }
    hide Sound;
  }

  /** Among the entries in use, those of a message are the ones that stand for it. */
  lemma EntriesOfMessage(c: Card, id: nat, e: nat)
    requires Sound(c) && Live(c.slots, id) && e < |c.entries|
    ensures id < |c.slots.alloc| && STACK_WORDS <= |c.mem| && e < STACK_ENTRIES
    ensures Listed(Pointers(c.mem), 2 * c.slots.alloc[id], e) <==> c.entries[e] == id
  {
    SoundShape(c);
    StackPoints(c);
    assert PointsAt(c.mem[..STACK_WORDS], 4 * e, c.entries[e], c.slots.alloc, c.slots.nextid);
    if c.entries[e] != id { AddressesDiffer(c, id, c.entries[e]); }
    hide Sound, AllocOk;
  }

  // ---- The jump ----

  /** The three words of the finished jump. */
  function JumpWords(control: bv16, f: Frame, intcnt: int): (r: seq<Word>)
    ensures |r| == 3
  {
    [Val(SetJump.FinalJump(control)), Short(f.frameptr),
     if intcnt == FULLFRAME then Short(f.msgcnt) else intcnt % 0x10000]
  }

  /** A message of three words or more: all but minor frame messages. */
  predicate JumpFits(c: Card, id: int)
  {
    Live(c.slots, id) ==> id < |c.slots.extent| && 3 <= c.slots.extent[id]
  }

  /** Set_Jump, in Bus Controller mode with remote terminals; `curstack` is the started frame's first entry. */
  function JumpTo(c: Card, curstack: Option<nat>, id: int, frameid: int, intcnt: int): (Result<()>, Card)
    requires Sound(c) && JumpFits(c, id) && (curstack.Some? ==> curstack.value <= STACK_ENTRIES)
  {
    if !Live(c.slots, id) then (Err(EbadId), c)
    else if !(0 <= frameid < |c.frames|) then (Err(FrmErange), c)
    else if intcnt > c.frames[frameid].msgcnt then (Err(FrmErangeCnt), c)
    else
      LiveSlot(c, id);
      hide Sound;
      var (noAlter, mem) := Checked(c.mem, curstack, 2 * c.slots.alloc[id]);
      if noAlter then (Err(EnoAlter), c)
      else (Ok(()), WithJump(WithMem(c, mem), id, JumpWords(ControlOf(c, id), c.frames[frameid], intcnt)))
  }

  function WithJump(c: Card, id: nat, words: seq<Word>): Card
    requires id < |c.slots.alloc| && id < |c.types| && c.slots.alloc[id] + |words| <= |c.mem|
  {
    c.(mem := Put(c.mem, c.slots.alloc[id], words), types := c.types[id := JUMP])
  }

  lemma JumpIsRecorded(control: bv16)
    ensures Recorded(Val(SetJump.FinalJump(control)), JUMP)
  {
    SetJump.FinalIsJump(control);
    BitsOfVal(SetJump.FinalJump(control));
    hide Bits, Val, SetJump.FinalJump;
  }

  lemma WithJumpKeeps(c: Card, id: nat, words: seq<Word>)
    requires Sound(c) && Live(c.slots, id) && words != [] && Recorded(words[0], JUMP)
    requires c.slots.alloc[id] + |words| <= Limit(c.slots, id)
    ensures LiveAt(c, id) && c.slots.alloc[id] + |words| <= |c.mem| && Sound(WithJump(c, id, words))
  {
    LiveSlot(c, id);
    SoundShape(c);
    SoundWithType(c, id, JUMP, words);
    hide AllocOk, AllRecorded, FramesOk, Put, Recorded, Limit;
  }

  /** A jump that succeeds has room for its three words. */
  lemma JumpRoom(c: Card, id: int)
    requires Sound(c) && JumpFits(c, id) && Live(c.slots, id)
    ensures LiveAt(c, id) && BLOCK1 <= c.slots.alloc[id] && c.slots.alloc[id] + 3 <= Limit(c.slots, id) <= |c.mem|
  {
    LiveSlot(c, id);
    hide Sound, AllocOk, Limit;
  }

  /** Whatever comes of it, the card stays sound. */
  lemma JumpKeeps(c: Card, curstack: Option<nat>, id: int, frameid: int, intcnt: int)
    requires Sound(c) && JumpFits(c, id) && (curstack.Some? ==> curstack.value <= STACK_ENTRIES)
    ensures Sound(JumpTo(c, curstack, id, frameid, intcnt).1)
  {
    hide Sound, Put, Recorded, Limit, WithJump, ControlOf, SetJump.FinalJump, Val, Checked;
    if JumpTo(c, curstack, id, frameid, intcnt).0.Ok? {
      JumpRoom(c, id);
      JumpIsRecorded(ControlOf(c, id));
      CheckedKeeps(c, curstack, 2 * c.slots.alloc[id]);
      WithJumpKeeps(WithMem(c, Checked(c.mem, curstack, 2 * c.slots.alloc[id]).1), id,
                    JumpWords(ControlOf(c, id), c.frames[frameid], intcnt));
    }
  }

  /** The check has said that the message may be altered, and what it cleared is cleared. */
  ghost predicate PassedCheck(c: Card, c': Card, curstack: Option<nat>, address: nat)
    requires PAST_STACK < |c.mem| && |c'.mem| == |c.mem| && (curstack.Some? ==> curstack.value <= STACK_ENTRIES)
  {
    && (forall k :: 0 <= k < BLOCK1 && k < |c.mem| ==>
          c'.mem[k] == if curstack.Some? && k == StatusLooked(c.mem, curstack.value, address) then 0 else c.mem[k])
    && (curstack.Some? ==> c.mem[StatusLooked(c.mem, curstack.value, address)] != NO_ALTER)
  }

  /**
   A jump holds the frame's address and the count, its control word differs from the old one in the
   command code only, it is recorded as a jump, and every other message is as it was.  Below the messages
   just the status word looked at is cleared.
   */
  lemma JumpHolds(c: Card, curstack: Option<nat>, id: int, frameid: int, intcnt: int)
    requires Sound(c) && JumpFits(c, id) && (curstack.Some? ==> curstack.value <= STACK_ENTRIES)
    requires JumpTo(c, curstack, id, frameid, intcnt).0.Ok?
    ensures var c' := JumpTo(c, curstack, id, frameid, intcnt).1;
      && Sound(c') && LiveAt(c, id) && LiveAt(c', id) && c'.slots == c.slots && c'.frames == c.frames
      && 0 <= frameid < |c.frames| && c.slots.alloc[id] + 2 < |c'.mem| && c'.types[id] == JUMP
      && Unpack(ControlOf(c', id)) == Unpack(ControlOf(c, id)).(command := JUMP)
      && c'.mem[c.slots.alloc[id] + 1] == c.frames[frameid].frameptr
      && c'.mem[c.slots.alloc[id] + 2] == (if intcnt == FULLFRAME then c.frames[frameid].msgcnt else intcnt % 0x10000)
      && (forall other :: 1 <= other < c.slots.nextid && other != id ==> Untouched(c, c', other))
      && PAST_STACK < |c.mem| == |c'.mem| && PassedCheck(c, c', curstack, 2 * c.slots.alloc[id])
  {
    hide Sound, Put, Unpack, SetJump.FinalJump, Limit, Untouched, ControlOf, Val, WithJump, Checked, PassedCheck;
    JumpRoom(c, id);
    JumpKeeps(c, curstack, id, frameid, intcnt);
    FrameFits(c, frameid);
    CheckedKeeps(c, curstack, 2 * c.slots.alloc[id]);
    CheckPassed(c, curstack, id, JumpWords(ControlOf(c, id), c.frames[frameid], intcnt));
    SetJump.FinalJumpFields(ControlOf(c, id));
    BitsOfVal(SetJump.FinalJump(ControlOf(c, id)));
  }

  lemma CheckPassed(c: Card, curstack: Option<nat>, id: nat, words: seq<Word>)
    requires Sound(c) && LiveAt(c, id) && |words| == 3 && BLOCK1 <= c.slots.alloc[id]
    requires c.slots.alloc[id] + 3 <= Limit(c.slots, id) <= |c.mem|
    requires curstack.Some? ==> curstack.value <= STACK_ENTRIES
    requires !Checked(c.mem, curstack, 2 * c.slots.alloc[id]).0
    ensures var at := c.slots.alloc[id]; var c' := WithJump(WithMem(c, Checked(c.mem, curstack, 2 * at).1), id, words);
      && LiveAt(c', id) && c'.slots == c.slots && c'.frames == c.frames && |c'.mem| == |c.mem| && c'.types[id] == JUMP
      && ControlOf(c', id) == Bits(words[0]) && c'.mem[at + 1] == words[1] && c'.mem[at + 2] == words[2]
      && (forall other :: 1 <= other < c.slots.nextid && other != id ==> Untouched(c, c', other))
      && PassedCheck(c, c', curstack, 2 * at)
  {
    hide Sound, Put, Bits, Limit, Untouched, StatusLooked;
    var at := c.slots.alloc[id];
    var checked := WithMem(c, Checked(c.mem, curstack, 2 * at).1);
    CheckedKeeps(c, curstack, 2 * at);
    WithJumpHolds(checked, id, words);
    PutAt(checked.mem, at, words);
    var c' := WithJump(checked, id, words);
    forall other | 1 <= other < c.slots.nextid && other != id ensures Untouched(c, c', other) {
      LiveSlot(c, other);
      LowWordUntouched(c, checked, c', other);
    }
  }

  lemma LowWordUntouched(c: Card, checked: Card, c': Card, other: nat)
    requires Untouched(checked, c', other) && other < |c.slots.alloc| && other < |c.slots.extent|
    requires c == checked.(mem := c.mem) && |c.mem| == |checked.mem| && BLOCK1 <= c.slots.alloc[other]
    requires forall k :: BLOCK1 <= k < |c.mem| ==> checked.mem[k] == c.mem[k]
    ensures Untouched(c, c', other)
  {
  }

  lemma WithJumpHolds(c: Card, id: nat, words: seq<Word>)
    requires Sound(c) && LiveAt(c, id) && |words| == 3
    requires c.slots.alloc[id] + 3 <= Limit(c.slots, id) <= |c.mem|
    ensures var c' := WithJump(c, id, words); var at := c.slots.alloc[id];
      && LiveAt(c', id) && c'.slots == c.slots && c'.frames == c.frames && |c'.mem| == |c.mem| && c'.types[id] == JUMP
      && ControlOf(c', id) == Bits(words[0]) && c'.mem[at + 1] == words[1] && c'.mem[at + 2] == words[2]
      && (forall other :: 1 <= other < c.slots.nextid && other != id ==> Untouched(c, c', other))
  {
    hide Sound, Put, Bits, Limit;
    SoundShape(c);
    var at := c.slots.alloc[id];
    PutAt(c.mem, at, words);
    assert Put(c.mem, at, words)[at + 0] == words[0];
    LiveSlot(c, id);
    OthersStay(c, id, at, words);
  }

  /** A frame's address and count fit a word. */
  lemma FrameFits(c: Card, frameid: nat)
    requires Sound(c) && frameid < |c.frames|
    ensures Short(c.frames[frameid].frameptr) == c.frames[frameid].frameptr
    ensures Short(c.frames[frameid].msgcnt) == c.frames[frameid].msgcnt
  {
    SoundShape(c);
    FramesApart(c.frames, c.nextstack, frameid, |c.frames|);
    hide AllocOk, AllRecorded, Pointing;
  }
}
