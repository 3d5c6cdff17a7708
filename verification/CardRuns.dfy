/** Any run of the Bus Controller calls, from a card just set to Bus Controller mode: what always holds. */
module CardRuns {
  import opened Common
  import opened MessageLayout
  import opened MessageAllocator
  import opened FrameStack
  import opened CardState
  import opened CardMessages
  import opened CardFrames
  import opened CardJumps

  /** Clear_Card. */
  function ClearCard(c: Card): Card
    requires Sound(c)
  {
    SoundShape(c);
    c.(slots := Cleared(c.slots), frames := [], nextstack := 0, entries := [])
  }

  /** Clear_Frame. */
  function ClearFrame(c: Card): Card { c.(frames := [], nextstack := 0, entries := []) }

  lemma NoFrames(stack: seq<Word>, alloc: seq<nat>, nextid: nat)
    requires |stack| == STACK_WORDS && nextid <= |alloc|
    ensures FramesOk(stack, [], 0, [], alloc, nextid)
  {
  }

  lemma ClearKeeps(c: Card)
    requires Sound(c)
    ensures Sound(ClearCard(c)) && Sound(ClearFrame(c))
  {
    SoundShape(c);
    ClearKeepsAlloc(c.slots);
    NoFrames(c.mem[..STACK_WORDS], c.slots.alloc, c.slots.nextid);
    NoFrames(c.mem[..STACK_WORDS], Cleared(c.slots).alloc, 1);
    hide AllocOk, FramesOk;
  }

  datatype Call =
    | Creates(expanded: bool, cmdtype: bv16, data: seq<Word>)
    | ReCreates(cmdtype: bv16, words: seq<Word>, id: int)
    | Alters(id: int, data: seq<Word>)
    | AltersCommand(id: int, rt: bv16, sa: bv16)
    | Sets(id: int, setter: Setter)
    | Skips(id: int)
    | Restores(id: int, msgtype: bv16)
    | MakesFrame(lines: seq<Line>, nios250: bool)
    | ReadsStatus(frameid: int, msgentry: int)
    | StartsFrame(frameid: int, nummsgs: int)
    | Jumps(curstack: Option<nat>, id: int, frameid: int, intcnt: int)
    | ClearsCard
    | ClearsFrames

  /** What the library demands of its callers: arrays long enough, known flags, an end to the frame's lines. */
  predicate Allowed(c: Card, call: Call)
    requires Sound(c)
  {
    match call
    case Creates(_, cmdtype, data) => |data| >= 2 && Supplied(RoomFor(cmdtype, data), data)
    case ReCreates(cmdtype, words, _) => |words| >= 2 && Supplied(ReCreatedRoom(cmdtype, Bits(words[0])), words)
    case Alters(id, data) =>
      && (Live(c.slots, id) ==> Covered(c, id))
      && (Covered(c, id) ==> |data| >= AlteredWords(KindOf(c, id), CommandOf(c, id)))
    case AltersCommand(id, _, _) => Live(c.slots, id) ==> Covered(c, id)
    case Sets(_, setter) => Legal(setter) && !setter.Command?
    case Skips(_) => true
    case Restores(_, _) => true
    case MakesFrame(lines, _) => Terminated(lines) && (LineCount(lines) == 0 ==> |c.frames| < MAXFRAMES)
    case ReadsStatus(_, _) => true
    case StartsFrame(_, _) => true
    case Jumps(curstack, id, _, _) => JumpFits(c, id) && (curstack.Some? ==> curstack.value <= STACK_ENTRIES)
    case ClearsCard => true
    case ClearsFrames => true
  }

  function Called(c: Card, call: Call): Card
    requires Sound(c) && Allowed(c, call)
  {
    hide Sound, RoomFor, ReCreatedRoom, KindOf, CommandOf, AlteredWords, Legal, Terminated;
    match call
    case Creates(expanded, cmdtype, data) => CreateMessage(c, expanded, cmdtype, data).1
    case ReCreates(cmdtype, words, id) => ReCreateMessage(c, cmdtype, words, id).1
    case Alters(id, data) =>
      if Live(c.slots, id) then
        CoveredSlot(c, id);
        AlterMessage(c, id, data).1
      else c
    case AltersCommand(id, rt, sa) => AlterCommand(c, id, rt, sa).1
    case Sets(id, setter) => SetControl(c, id, setter).1
    case Skips(id) => SetControl(c, id, Command(SKIP)).1
    case Restores(id, msgtype) => Restore(c, id, msgtype).1
    case MakesFrame(lines, nios250) => CreateFrame(c, lines, nios250).1
    case ReadsStatus(frameid, msgentry) => EntryStatus(c, frameid, msgentry).1
    case StartsFrame(frameid, nummsgs) => StartFrame(c, frameid, nummsgs).1
    case Jumps(curstack, id, frameid, intcnt) => JumpTo(c, curstack, id, frameid, intcnt).1
    case ClearsCard => ClearCard(c)
    case ClearsFrames => ClearFrame(c)
  }

  lemma CallKeepsSound(c: Card, call: Call)
    requires Sound(c) && Allowed(c, call)
    ensures Sound(Called(c, call))
  {
    hide Sound, CreateMessage, ReCreateMessage, AlterMessage, AlterCommand, SetControl, CreateFrame, EntryStatus,
      JumpTo, ClearCard, ClearFrame,
      Legal, RoomFor, ReCreatedRoom, Room;
    match call
    case Creates(expanded, cmdtype, data) => CreateKeeps(c, expanded, cmdtype, data);
    case ReCreates(cmdtype, words, id) => ReCreateKeeps(c, cmdtype, words, id);
    case Alters(id, data) => if Live(c.slots, id) { AlterCallKeeps(c, id, data); }
    case AltersCommand(id, rt, sa) => AlterCommandCallKeeps(c, id, rt, sa);
    case Sets(id, setter) => SetCallKeeps(c, id, setter);
    case Skips(id) =>
      SkipIsLegal();
      SetCallKeeps(c, id, Command(SKIP));
    case Restores(id, msgtype) => RestoreCallKeeps(c, id, msgtype);
    case MakesFrame(lines, nios250) => CreateFrameKeeps(c, lines, nios250);
    case ReadsStatus(frameid, msgentry) => EntryStatusKeeps(c, frameid, msgentry);
    case StartsFrame(frameid, nummsgs) => StartKeeps(c, frameid, nummsgs);
    case Jumps(curstack, id, frameid, intcnt) => JumpKeeps(c, curstack, id, frameid, intcnt);
    case ClearsCard => ClearKeeps(c);
    case ClearsFrames => ClearKeeps(c);
  }

  lemma AlterCallKeeps(c: Card, id: int, data: seq<Word>)
    requires Sound(c) && Covered(c, id) && |data| >= AlteredWords(KindOf(c, id), CommandOf(c, id))
    ensures LiveAt(c, id) && Sound(AlterMessage(c, id, data).1)
  {
    CoveredSlot(c, id);
    assert KindOf(c, id) != MINOR_FRAME;
    AlterKeeps(c, id, data);
    hide Sound;
  }

  lemma AlterCommandCallKeeps(c: Card, id: int, rt: bv16, sa: bv16)
    requires Sound(c) && (Live(c.slots, id) ==> Covered(c, id))
    ensures Sound(AlterCommand(c, id, rt, sa).1)
  {
    if Live(c.slots, id) && rt <= 32 && sa <= 32 { AlterCommandKeeps(c, id, rt, sa); }
    hide Sound;
  }

  lemma SetCallKeeps(c: Card, id: int, s: Setter)
    requires Sound(c) && Legal(s) && (s.Command? ==> s.code == SKIP)
    ensures Sound(SetControl(c, id, s).1)
  {
    if Live(c.slots, id) {
      LiveIsAt(c, id);
      SetControlKeeps(c, id, s);
    }
    hide Sound;
  }

  lemma RestoreCallKeeps(c: Card, id: int, msgtype: bv16)
    requires Sound(c)
    ensures Sound(Restore(c, id, msgtype).1)
  {
    if Live(c.slots, id) {
      LiveIsAt(c, id);
      if msgtype < SKIP && msgtype == c.types[id] {
        TypeIsLegal(msgtype);
        SetControlKeeps(c, id, Command(msgtype));
      }
    }
    hide Sound;
  }

  lemma TypeIsLegal(msgtype: bv16)
    requires msgtype < SKIP
    ensures Legal(Command(msgtype)) && Code(msgtype) == msgtype
  {
  }

  /** A run; calls that are not allowed are not made. */
  ghost function Run(c: Card, calls: seq<Call>): (r: Card)
    requires Sound(c)
    ensures Sound(r)
    decreases |calls|
  {
    hide Sound, Allowed, Called;
    if calls == [] then c
    else if Allowed(c, calls[0]) then
      CallKeepsSound(c, calls[0]);
      Run(Called(c, calls[0]), calls[1..])
    else Run(c, calls[1..])
  }

  /** Set_Mode to a Bus Controller mode. */
  function NewCard(p: Processor, mem: seq<Word>): (c: Card)
    requires |mem| == DPRAM_WORDS
    ensures Sound(c)
  {
    InitialOk(p);
    NoFrames(mem[..STACK_WORDS], Initial(p).alloc, 1);
    Card(Initial(p), mem, seq(MSGMAX, _ => 0), [], 0, [])
  }

  /** A sound card that a failed create changes: an RT to RT transfer of 32 words on a full AMD board. */
  lemma FailedCreateStrands() returns (c: Card, data: seq<Word>)
    ensures Sound(c) && |data| >= 2 && Supplied(RoomFor(RT2RT, data), data)
    ensures var (r, c') := CreateMessage(c, true, RT2RT, data); r == Err(MsgNoSpace) && c' != c
  {
    var a := CreateStrands();
    c := Card(a, seq(DPRAM_WORDS, i => if i == 0x7FE0 then 0x81 else 0), seq(MSGMAX, _ => BC2RT), [], 0, []);
    data := [0, 0x400] + seq(34, _ => 0);
    assert Recorded(0x81, BC2RT);
    NoFrames(c.mem[..STACK_WORDS], a.alloc, a.nextid);
    LongestMessage(RT2RT, 0);
    assert RoomFor(RT2RT, data) == 36;
    NoneChosen(a, true, LONGEST);
    hide AllocOk, FramesOk, NoFit, Room;
  }

  /** A frame's entries lie in the stack, apart from those of other frames, and point at live messages. */
  ghost predicate FrameIsGood(c: Card, f: nat)
    requires Sound(c)
  {
    && f < |c.frames| && c.frames[f].frameptr % 8 == 0 && FrameEnd(c.frames[f]) <= 2 * c.nextstack <= 2 * STACK_WORDS
    && (f > 0 ==> FrameEnd(c.frames[f - 1]) == c.frames[f].frameptr) && (f == 0 ==> c.frames[f].frameptr == 0)
    && (forall k :: 0 <= k < c.frames[f].msgcnt ==> EntryIsGood(c, f, k))
  }

  ghost predicate EntryIsGood(c: Card, f: nat, k: nat)
    requires Sound(c) && f < |c.frames| && k < c.frames[f].msgcnt
  {
    var id, at := EntryMessage(c, f, k), EntryAddress(c.frames[f], k);
    id < |c.slots.alloc| && at < |c.mem| && c.mem[at] == 2 * c.slots.alloc[id]
  }

  lemma FramesAreGood(c: Card, f: nat)
    requires Sound(c) && f < |c.frames|
    ensures FrameIsGood(c, f)
  {
    SoundShape(c);
    SoundFrames(c);
    var first := FrameAligned(c.frames, c.nextstack, f);
    FramesApart(c.frames, c.nextstack, f, |c.frames|);
    hide Sound;
    forall k | 0 <= k < c.frames[f].msgcnt ensures EntryIsGood(c, f, k) { EntryPointsAt(c, f, k); }
  }

  /**
   After any calls at all: messages lie apart and in the order of their ids; each in one block, unless
   it was re-created across a block's end; each control word says SKIP or the recorded type; and the
   frames tile the stack with entries that point at live messages.
   */
  lemma {:induction false} EveryRunIsSound(p: Processor, mem: seq<Word>, calls: seq<Call>, i: nat, j: nat, f: nat)
    requires |mem| == DPRAM_WORDS
    ensures var c := Run(NewCard(p, mem), calls);
      && |c.slots.alloc| == |c.slots.extent| == |c.types| == MSGMAX
      && |c.mem| == DPRAM_WORDS && c.slots.nextid <= MSGMAX
      && (1 <= i < j < c.slots.nextid ==> c.slots.alloc[i] + c.slots.extent[i] <= c.slots.alloc[j])
      && (1 <= j < c.slots.nextid ==>
            && BLOCK1 <= c.slots.alloc[j] && 1 <= c.slots.extent[j]
            && c.slots.alloc[j] + c.slots.extent[j] <= DPRAM_WORDS
            && (j !in c.slots.spilled ==> InOneBlock(c.slots.p, c.slots.alloc[j], c.slots.extent[j]))
            && Code(ControlOf(c, j)) in {SKIP, Code(c.types[j])})
      && (f < |c.frames| ==> FrameIsGood(c, f))
  {
    hide Run, NewCard;
    var c := Run(NewCard(p, mem), calls);
    SoundShape(c);
    if 1 <= j < c.slots.nextid {
      LiveSlot(c, j);
      StaysInBlock(c, j);
      if 1 <= i < j { SlotsDisjoint(c.slots, i, j); }
    }
    if f < |c.frames| { FramesAreGood(c, f); }
    hide Sound, AllocOk, FrameIsGood, Known, Code, Bits, InOneBlock;
  }

  lemma StaysInBlock(c: Card, j: nat)
    requires Sound(c) && Live(c.slots, j)
    ensures j < |c.slots.alloc| && j < |c.slots.extent|
    ensures j !in c.slots.spilled ==> InOneBlock(c.slots.p, c.slots.alloc[j], c.slots.extent[j])
  {
    hide InOneBlock, FramesOk, AllRecorded;
  }
}
