/**
 The Bus Controller functions of the library as they go about it: over the dual-port RAM and the
 fields of a card's instance record.
 */
module BusController {
  import opened Common
  import opened MessageLayout
  import opened MessageAllocator
  import opened FrameStack
  import opened CardState
  import opened CardMessages
  import opened CardFrames
  import opened CardJumps
  import opened StackScan
  import opened CardRuns
  import Jumping = SetJump
  import TimeCodes

  /** The switch with which the library tells good command types from bad ones. */
  method CheckKind(kind: bv16, data: seq<Word>) returns (r: Result<()>)
    requires |data| >= 2
    ensures r == KindChecked(kind, data)
  {
    if kind == MINOR_FRAME || kind == MODE || kind == BRD_MODE {
    } else if kind == BRD_RCV || kind == BC2RT {
      if Bits(data[0]) & TRANSMIT_BIT != 0 { return Err(EbadCommandWord); }
    } else if kind == RT2BC {
      if Bits(data[0]) & TRANSMIT_BIT == 0 { return Err(EbadCommandWord); }
    } else if kind == BRD_RT2RT || kind == RT2RT {
      if Bits(data[0]) & TRANSMIT_BIT != 0 { return Err(EbadCommandWord); }
      if Bits(data[1]) & TRANSMIT_BIT == 0 { return Err(EbadCommandWord); }
    } else {
      return Err(Einval);
    }
    return Ok(());
  }

  /** Alter_Cmd's work on the command word; 32 stands for no change. */
  method Readdress(command: bv16, rt: bv16, sa: bv16) returns (c: bv16)
    ensures c == AlteredCommand(command, rt, sa)
  {
    c := command;
    if rt != 32 { c := (c & 0x07ff) | (rt << 11); }
    if sa != 32 { c := (c & 0xfc1f) | (sa << 5); }
  }

  /** Insert_Msg_Err's work on the control word. */
  method NewErrors(controlword: bv16, cmdtype: bv16, modecodeRcv: bool, flags: bv16) returns (w: bv16)
    ensures w == WithErrors(controlword,
      if flags == 0 then 0 else if cmdtype in {BC2RT, BRD_RCV} || modecodeRcv then flags else flags | DATA_ERR)
  {
    ErrorsOr(controlword, flags);
    hide WithErrors;
    if flags == 0 { w := controlword & !ERRFLAGS; }
    else if cmdtype != BC2RT && cmdtype != BRD_RCV && !modecodeRcv { w := (controlword & !ERRFLAGS) | flags | 0x100; }
    else { w := (controlword & !ERRFLAGS) | flags; }
  }

  lemma ErrorsOr(w: bv16, flags: bv16)
    ensures (w & !ERRFLAGS) | flags | 0x100 == WithErrors(w, flags | DATA_ERR)
    ensures (w & !ERRFLAGS) | flags == WithErrors(w, flags) && w & !ERRFLAGS == WithErrors(w, 0)
  {
  }

  /** The command word is in memory, where it is looked at. */
  predicate ModeCommandThere(c: Card, id: int)
  {
    LiveAt(c, id) && (KindOf(c, id) in {MODE, BRD_MODE} ==> c.slots.alloc[id] + 1 < |c.mem|)
  }

  /** All data words are the controller's own: it sends them to one RT or to all, or it is mode code 17. */
  predicate AllOwnWords(c: Card, id: nat)
    requires ModeCommandThere(c, id)
  {
    KindOf(c, id) in {BC2RT, BRD_RCV} || (KindOf(c, id) in {MODE, BRD_MODE} && CommandOf(c, id) & 0x1f == 17)
  }

  /** The data-error bit comes along unless all words are the controller's own. */
  lemma InjectedFlags(c: Card, id: nat, command: bv16, rcv: bool, flags: bv16)
    requires ModeCommandThere(c, id) && (KindOf(c, id) in {MODE, BRD_MODE} ==> command == CommandOf(c, id))
    requires rcv <==> KindOf(c, id) in {MODE, BRD_MODE} && command & 0x1f == 17
    ensures var kind, bits := KindOf(c, id), InjectedBits(KindOf(c, id), command, flags);
      && bits == (if flags == 0 || AllOwnWords(c, id) then flags else flags | 0x100)
      && bits == (if flags == 0 then 0 else if kind in {BC2RT, BRD_RCV} || rcv then flags else flags | DATA_ERR)
  {
    hide KindOf, CommandOf;
  }

  predicate AreErrors(flags: bv16) { flags & !0x5F00 == 0 }

  /**
   The flags given have been put in place of the errors there were, together with the data-error bit unless all
   words are the controller's own.  If they are error flags, the other five fields are as before.
   */
  predicate FlagsInjected(w: bv16, w': bv16, own: bool, flags: bv16)
  {
    var bits := if flags == 0 || own then flags else flags | 0x100;
    w' == (w & !0x5F00) | bits && (AreErrors(flags) ==> Unpack(w') == Unpack(w).(errors := bits))
  }

  lemma RewrittenErrors(w: bv16, own: bool, flags: bv16)
    ensures FlagsInjected(w, WithErrors(w, if flags == 0 || own then flags else flags | 0x100), own, flags)
  {
    hide WithErrors, Unpack, AreErrors;
    DataErrIsError(flags);
    if flags == 0 || own { ErrorsReplaced(w, flags); } else { ErrorsReplaced(w, flags | 0x100); }
  }

  lemma ErrorsReplaced(w: bv16, bits: bv16)
    ensures WithErrors(w, bits) == (w & !0x5F00) | bits
    ensures AreErrors(bits) ==> Unpack(WithErrors(w, bits)) == Unpack(w).(errors := bits)
  {
    if AreErrors(bits) { ErrorsIsUpdate(w, bits); }
    hide Unpack;
  }

  lemma DataErrIsError(flags: bv16)
    ensures AreErrors(flags) ==> AreErrors(flags | 0x100) && Legal(Errors(flags)) && Legal(Errors(flags | 0x100))
  {
  }

  lemma Injection(c: Card, id: nat, command: bv16, rcv: bool, flags: bv16)
    requires Sound(c) && Live(c.slots, id) && ModeCommandThere(c, id)
    requires KindOf(c, id) in {MODE, BRD_MODE} ==> command == CommandOf(c, id)
    requires rcv <==> KindOf(c, id) in {MODE, BRD_MODE} && command & 0x1f == 17
    ensures var kind, bits := KindOf(c, id), InjectedBits(KindOf(c, id), command, flags);
      && bits == (if flags == 0 then 0 else if kind in {BC2RT, BRD_RCV} || rcv then flags else flags | DATA_ERR)
      && FlagsInjected(ControlOf(c, id), WithErrors(ControlOf(c, id), bits), AllOwnWords(c, id), flags)
      && (AreErrors(flags) ==> Legal(Errors(bits)))
  {
    hide Sound, KindOf, CommandOf, ControlOf, InjectedBits, WithErrors, FlagsInjected, AllOwnWords, AreErrors, Legal;
    DataErrIsError(flags);
    InjectedFlags(c, id, command, rcv, flags);
    RewrittenErrors(ControlOf(c, id), AllOwnWords(c, id), flags);
  }

  // The setters' expressions, and what they amount to.

  lemma BusWord(w: bv16, channel: bv16)
    ensures (w & !XMT_BUS_A) | channel == Rewritten(w, Bus(channel))
    ensures channel in {XMT_BUS_A, 0} ==> Legal(Bus(channel))
  {
  }

  lemma RetryWord(w: bv16, num: bv16, altchan: bv16)
    ensures (w & !RETRY_MASK) | altchan | (num << 4) == Rewritten(w, Retry(num, altchan))
    ensures num <= 3 && altchan in {0, RETRY_ALT_BUS} ==>
      Legal(Retry(num, altchan)) && RetryBits(num, altchan) == altchan + 0x10 * num
  {
  }

  lemma FlagWords(w: bv16)
    ensures w | HALT_CONT == Rewritten(w, Halt) && w & !HALT_CONT == Rewritten(w, Continue)
    ensures w | STOP_ON_ERROR == Rewritten(w, StopOnError) && Legal(Halt) && Legal(Continue) && Legal(StopOnError)
  {
  }

  lemma CommandWord(w: bv16, code: bv16)
    ensures (w & !COMMAND_CODE) | code == Rewritten(w, Command(code))
    ensures Legal(Command(SKIP)) && (code < SKIP ==> Legal(Command(code)))
  {
  }

  class Instance {
    const processor: Processor
    const dpram: array<Word>
    /** Bus Controller mode has remote terminals too. */
    const withRts: bool
    /** Bus Controller mode, with or without remote terminals. */
    var bcMode: bool
    /** The expanded-block bit, and the 250 ns option of a Nios board. */
    var expanded: bool
    var nios250: bool
    /** Tables of fixed length; entry 0 of the first two is not used. */
    var msgalloc: seq<nat>
    var commandtype: seq<bv16>
    var nextid: nat
    var nextmsg: nat
    var msgBlock: nat
    var framealloc: seq<Frame>
    var nextframe: nat
    var nextstack: nat
    /** The stack entry at which the started frame begins, once one was started. */
    var curstack: Option<nat>
    ghost var extent: seq<nat>
    ghost var spilled: set<nat>
    ghost var entries: seq<nat>

    ghost function View(): Card
      requires nextframe <= |framealloc|
      reads this, dpram
    {
      Card(Allocator(processor, msgalloc, extent, nextid, nextmsg, msgBlock, spilled), dpram[..], commandtype,
           framealloc[..nextframe], nextstack, entries)
    }

    ghost predicate Valid()
      reads this, dpram
    {
      nextframe <= |framealloc| == MAXFRAMES && Sound(View()) && (curstack.Some? ==> curstack.value <= STACK_ENTRIES)
    }

    /** Set_Mode's share in this. */
    constructor (processor: Processor, withRts: bool, expanded: bool, nios250: bool)
      ensures Valid() && fresh(dpram) && bcMode && View() == NewCard(processor, dpram[..])
      ensures this.withRts == withRts && this.expanded == expanded && this.nios250 == nios250
    {
      this.withRts := withRts;
      this.processor, this.expanded, this.nios250, bcMode := processor, expanded, nios250, true;
      dpram := new Word[DPRAM_WORDS];
      msgalloc, commandtype, framealloc := seq(MSGMAX, _ => 0), seq(MSGMAX, _ => 0), seq(MAXFRAMES, _ => Frame(0, 0));
      nextid, nextmsg, msgBlock, nextframe, nextstack, curstack := 1, BLOCK1, 1, 0, 0, None;
      curstack, extent, spilled, entries := None, seq(MSGMAX, _ => 0), {}, [];
      new;
      hide Sound;
      assert View() == NewCard(processor, dpram[..]);
    }

    /** What only Set_Mode and Start_Frame change. */
    twostate predicate SameModes()
      reads this
    {
      bcMode == old(bcMode) && expanded == old(expanded) && nios250 == old(nios250) && curstack == old(curstack)
    }

    /** A bulk write to the dual-port RAM. */
    method WriteWords(at: nat, data: seq<Word>)
      requires at + |data| <= dpram.Length
      modifies dpram
      ensures dpram[..] == Put(old(dpram[..]), at, data)
    {
      forall k | 0 <= k < |data| { dpram[at + k] := data[k]; }
    }

    method WriteWord(at: nat, w: Word)
      requires at < dpram.Length
      modifies dpram
      ensures dpram[..] == old(dpram[..])[at := w]
    {
      dpram[at] := w;
    }

    /** Create_1553_Message. */
    method Create(cmdtype: bv16, data: seq<Word>) returns (r: Result<nat>)
      requires Valid() && |data| >= 2 && Supplied(RoomFor(cmdtype, data), data)
      modifies this, dpram
      ensures Valid() && SameModes()
      ensures if bcMode then (r, View()) == CreateMessage(old(View()), expanded, cmdtype, data)
              else r == Err(Emode) && View() == old(View())
    {
      hide Sound, KindChecked, RoomFor, CreateMessage, AllocOk, Chosen, NoFit, FreeAt, WithMessage, IsFirstFit, Known,
          Room, Bits, Put;
      ghost var c := View();
      SoundShape(c);
      if !bcMode { return Err(Emode); }
      var checked := CheckKind(cmdtype, data);
      CreateCases(c, expanded, cmdtype, data);
      CreateKeeps(c, expanded, cmdtype, data);
      if checked.Err? { return Err(checked.error); }
      CheckedKind(cmdtype, data);
      var size := CreatedSize(cmdtype, Bits(data[0]));
      if nextid == MSGMAX { return Err(Msg2Many); }
      var found, block, free := FindRoom(processor, expanded, msgBlock, nextmsg, size + 1, c.slots);
      msgBlock, nextmsg := block, free;
      if !found { return Err(MsgNoSpace); }
      r := Place(c, block, cmdtype, data[..size]);
    }

    /** The rest of Create_1553_Message, at the place found. */
    method Place(ghost c: Card, block: nat, cmdtype: bv16, data: seq<Word>) returns (r: Result<nat>)
      requires nextframe <= |framealloc| == MAXFRAMES && Sound(c) && c.slots.nextid < MSGMAX && msgBlock == block
      requires AllocOk(c.slots) && nextmsg == FreeAt(c.slots, block) && nextmsg + 1 + |data| <= |c.mem|
      requires View() == c.(slots := c.slots.(nextmsg := nextmsg, block := block))
      modifies this`msgalloc, this`commandtype, this`nextid, this`nextmsg, this`extent, this`spilled, dpram
      ensures r == Ok(c.slots.nextid) && View() == WithMessage(c, block, cmdtype, data)
    {
      hide Sound, AllocOk, FreeAt, Put, Val;
      SoundShape(c);
      msgalloc, commandtype := msgalloc[nextid := nextmsg], commandtype[nextid := cmdtype];
      TwoWrites(dpram[..], nextmsg, Val(0x80 + cmdtype), data);
      WriteWord(nextmsg, Val(0x80 + cmdtype));
      WriteWords(nextmsg + 1, data);
      extent, spilled := extent[nextid := 1 + |data|], spilled - {nextid};
      nextmsg := nextmsg + 1 + |data|;
      r := Ok(nextid);
      nextid := nextid + 1;
    }

    /** Re_Create_Message. */
    method ReCreate(cmdtype: bv16, data: seq<Word>, id: int) returns (r: Result<()>)
      requires Valid() && |data| >= 2 && Supplied(ReCreatedRoom(cmdtype, Bits(data[0])), data)
      modifies this, dpram
      ensures Valid() && SameModes()
      ensures if bcMode then (r, View()) == ReCreateMessage(old(View()), cmdtype, data, id)
              else r == Err(Emode) && View() == old(View())
    {
      hide Sound, KindChecked, ReCreatedRoom, AllocOk, Put, Val, Bits, Known, Room, InOneBlock, Recorded, Limit, Code;
      ghost var c := View();
      SoundShape(c);
      if !bcMode { return Err(Emode); }
      ReCreateKeeps(c, cmdtype, data, id);
      if id < 1 || id >= nextid { return Err(EbadId); }
      var checked := CheckKind(Code(cmdtype), data);
      if checked.Err? { return Err(checked.error); }
      var size := ReCreatedSize(cmdtype, Bits(data[0]));
      assert size == ReCreatedRoom(cmdtype, Bits(data[0])) by { ReCreatedRoomIs(cmdtype, Bits(data[0])); }
      LiveSlot(c, id);
      var nextptr := if nextid == id + 1 then nextmsg else msgalloc[id + 1];
      if msgalloc[id] + size + 1 > nextptr { return Err(Msg2Big); }
      NextPtrIsLimit(c.slots, id, 1 + size);
      commandtype := commandtype[id := cmdtype];
      TwoWrites(dpram[..], msgalloc[id], Val(cmdtype), data[..size]);
      WriteWords(msgalloc[id] + 1, data[..size]);
      WriteWord(msgalloc[id], Val(cmdtype));
      extent := extent[id := 1 + size];
      spilled := if InOneBlock(processor, msgalloc[id], 1 + size) then spilled - {id} else spilled + {id};
      return Ok(());
    }

    /** A bulk read of the dual-port RAM. */
    method ReadWords(at: nat, n: nat) returns (words: seq<Word>)
      requires at + n <= dpram.Length
      ensures words == dpram[at..at + n]
    {
      words := dpram[at..at + n];
    }

    /** Alter_Message. */
    method Alter(id: int, data: seq<Word>) returns (r: Result<()>)
      requires Valid()
      requires Live(View().slots, id) ==>
        LiveAt(View(), id) && (KindOf(View(), id) in {JUMP, MINOR_FRAME} || Alterable(View(), id, data))
      modifies dpram
      ensures r.Err? || Covered(old(View()), id) ==> Valid()
      ensures (r, View()) == if bcMode then AlterMessage(old(View()), id, data) else (Err(Emode), old(View()))
    {
      hide Sound, Put, Bits, Known, Room, WordCount;
      ghost var c := View();
      SoundShape(c);
      if !bcMode { return Err(Emode); }
      if id < 1 || id >= nextid { return Err(EbadId); }
      var msgptr := msgalloc[id];
      var msgtype := Bits(dpram[msgptr]) & 7;
      if msgtype == SKIP { msgtype := commandtype[id]; }
      if msgtype == JUMP { return Err(Ejump); }
      if msgtype == MINOR_FRAME { return Err(EminorFrame); }
      var offset, wdcnt := AlteredSpan(msgtype, Bits(dpram[msgptr + 1]));
      if Covered(c, id) { AlterKeeps(c, id, data); }
      WriteWords(msgptr + offset, data[..wdcnt]);
      return Ok(());
    }

    /** Alter_Cmd. */
    method AlterCmd(id: int, rt: bv16, sa: bv16) returns (r: Result<()>)
      requires Valid() && (Live(View().slots, id) ==> LiveAt(View(), id) && msgalloc[id] + 1 < dpram.Length)
      modifies dpram
      ensures r.Err? || Covered(old(View()), id) ==> Valid()
      ensures (r, View()) == if bcMode then AlterCommand(old(View()), id, rt, sa) else (Err(Emode), old(View()))
    {
      hide Sound, Bits, Known, Room, Val, AlteredCommand, Covered, KindOf;
      ghost var c := View();
      SoundShape(c);
      if !bcMode { return Err(Emode); }
      if id < 1 || id >= nextid { return Err(EbadId); }
      if rt > 32 { return Err(Einval); }
      if sa > 32 { return Err(Einval); }
      if Covered(c, id) { AlterCommandKeeps(c, id, rt, sa); }
      var command := Readdress(Bits(dpram[msgalloc[id] + 1]), rt, sa);
      WriteWord(msgalloc[id] + 1, Val(command));
      return Ok(());
    }

    /** Read_Message. */
    method Read(id: int) returns (r: Result<seq<Word>>)
      requires Valid()
      requires Live(View().slots, id) ==>
        LiveAt(View(), id) && (KindOf(View(), id) == MINOR_FRAME || ReadableAt(View(), id))
      ensures r == if bcMode then ReadMessage(View(), id) else Err(Emode)
    {
      hide Sound, Bits, Known, Room, Words;
      SoundShape(View());
      if !bcMode { return Err(Emode); }
      if id < 1 || id >= nextid { return Err(EbadId); }
      var msgtype := Bits(dpram[msgalloc[id]]) & 7;
      if msgtype == SKIP { msgtype := commandtype[id]; }
      if msgtype == MINOR_FRAME { return Err(EminorFrame); }
      r := ReadAs(msgalloc[id], msgtype, id);
    }

    /** Read_Message and Get_BC_Msgentry from the word count on. */
    method ReadAs(msgptr: nat, msgtype: bv16, ghost id: nat) returns (r: Result<seq<Word>>)
      requires Valid() && ReadableAt(View(), id) && msgtype == KindOf(View(), id) != MINOR_FRAME
      requires msgptr == msgalloc[id]
      ensures r == ReadMessage(View(), id)
    {
      hide Sound, Bits, Known, Room, Words, KindIn;
      if msgtype == JUMP {
        var control := ReadWords(msgptr, 2);
        return Ok(control);
      }
      LongestMessage(KindOf(View(), id), CommandOf(View(), id));
      var wdcnt := ReadCount(msgtype, Bits(dpram[msgptr + 1]));
      var words := ReadWords(msgptr + 1, wdcnt);
      r := Ok(words);
    }

    /** Clear_Card. */
    method Clear()
      requires Valid()
      modifies this
      ensures Valid() && View() == ClearCard(old(View()))
      ensures SameModes()
    {
      hide Sound, AllocOk, FramesOk, AllRecorded;
      ghost var c := View();
      ClearKeeps(c);
      SoundShape(c);
      nextid, nextframe, nextmsg, msgBlock, nextstack, entries := 1, 0, BLOCK1, 1, 0, [];
      var table := msgalloc;
      var i := 0;
      while i < MSGMAX
        invariant 0 <= i <= MSGMAX == |table| && forall k :: 0 <= k < i ==> table[k] == 0
      {
        table := table[i := 0];
        i := i + 1;
      }
      msgalloc := table;
      assert table == seq(MSGMAX, _ => 0);
      assert View() == ClearCard(c);
    }

    /** Clear_Frame. */
    method ClearFrames()
      requires Valid()
      modifies this`nextframe, this`nextstack, this`entries
      ensures Valid() && View() == ClearFrame(old(View()))
    {
      hide Sound;
      ClearKeeps(View());
      nextframe, nextstack, entries := 0, 0, [];
    }

    /** What all setters end with. */
    method WriteControl(id: int, w: bv16, ghost s: Setter)
      requires Valid() && Live(View().slots, id) && LiveAt(View(), id)
      requires w == Rewritten(ControlOf(View(), id), s)
      modifies dpram
      ensures (Ok(()), View()) == SetControl(old(View()), id, s)
      ensures OnlyControl(old(View()), View(), id) && ControlOf(View(), id) == w
      ensures Legal(s) ==> Unpack(ControlOf(View(), id)) == Updated(Unpack(ControlOf(old(View()), id)), s)
      ensures Legal(s) && (s.Command? ==> s.code in {SKIP, Code(commandtype[id])}) ==> Valid()
    {
      hide Sound, Rewritten, Legal, Code, Bits, Val, ControlOf, Unpack, Updated, SetControl;
      ghost var c := View();
      SoundShape(c);
      ControlAfter(c, id, s);
      if Legal(s) {
        SetterIsUpdate(ControlOf(c, id), s);
        if s.Command? ==> s.code in {SKIP, Code(commandtype[id])} { SetControlKeeps(c, id, s); }
      }
      Rewrote(c, id, s);
      WriteWord(msgalloc[id], Val(w));
    }

    method CheckId(id: int) returns (r: Result<()>)
      requires Valid()
      ensures r == if !bcMode then Err(Emode) else if !(1 <= id < nextid) then Err(EbadId) else Ok(())
    {
      if !bcMode { return Err(Emode); }
      if id < 1 || id >= nextid { return Err(EbadId); }
      return Ok(());
    }

    method ReadControl(id: int) returns (w: bv16)
      requires Valid() && Live(View().slots, id)
      ensures LiveAt(View(), id) && w == ControlOf(View(), id)
    {
      hide Sound;
      LiveIsAt(View(), id);
      w := Bits(dpram[msgalloc[id]]);
    }

    /** Set_Bus. */
    method SetBus(id: int, channel: bv16) returns (r: Result<()>)
      requires Valid()
      modifies dpram
      ensures Valid()
      ensures r == if !bcMode then Err(Emode) else if !(1 <= id < nextid) then Err(EbadId)
                   else if channel !in {0x80, 0} then Err(EbadChan) else Ok(())
      ensures r.Err? ==> View() == old(View())
      ensures r.Ok? ==>
        OnlyControl(old(View()), View(), id) &&
        Unpack(ControlOf(View(), id)) == Unpack(ControlOf(old(View()), id)).(bus := channel)
    {
      hide Sound, Bits, SetControl, ControlOf, Legal, Rewritten, Unpack, Code;
      r := CheckId(id);
      if r.Err? { return; }
      if channel != XMT_BUS_A && channel != 0 { return Err(EbadChan); }
      var tempWord := ReadControl(id);
      BusWord(tempWord, channel);
      WriteControl(id, (tempWord & !XMT_BUS_A) | channel, Bus(channel));
    }

    /** Set_Retry. */
    method SetRetry(id: int, num: bv16, altchan: bv16) returns (r: Result<()>)
      requires Valid()
      modifies dpram
      ensures Valid()
      ensures r == if !bcMode then Err(Emode) else if !(1 <= id < nextid) then Err(EbadId)
                   else if num > 3 || altchan !in {0, 0x40} then Err(Einval) else Ok(())
      ensures r.Err? ==> View() == old(View())
      ensures r.Ok? ==>
        OnlyControl(old(View()), View(), id) &&
        Unpack(ControlOf(View(), id)) == Unpack(ControlOf(old(View()), id)).(retry := altchan + 0x10 * num)
    {
      hide Sound, Bits, SetControl, ControlOf, Legal, Rewritten, Unpack, Code;
      r := CheckId(id);
      if r.Err? { return; }
      if num > 3 { return Err(Einval); }
      if altchan != 0 && altchan != RETRY_ALT_BUS { return Err(Einval); }
      var tempWord := ReadControl(id);
      RetryWord(tempWord, num, altchan);
      WriteControl(id, (tempWord & !RETRY_MASK) | altchan | (num << 4), Retry(num, altchan));
    }

    /** Set_Halt. */
    method SetHalt(id: int) returns (r: Result<()>)
      requires Valid()
      modifies dpram
      ensures Valid()
      ensures r == if !bcMode then Err(Emode) else if !(1 <= id < nextid) then Err(EbadId)
                   else Ok(())
      ensures r.Err? ==> View() == old(View())
      ensures r.Ok? ==>
        OnlyControl(old(View()), View(), id) &&
        Unpack(ControlOf(View(), id)) == Unpack(ControlOf(old(View()), id)).(halt := 0x2000)
    {
      hide Sound, Bits, SetControl, ControlOf, Legal, Rewritten, Unpack, Code;
      r := CheckId(id);
      if r.Err? { return; }
      var tempWord := ReadControl(id);
      FlagWords(tempWord);
      WriteControl(id, tempWord | HALT_CONT, Halt);
    }

    /** Set_Continue. */
    method SetContinue(id: int) returns (r: Result<()>)
      requires Valid()
      modifies dpram
      ensures Valid()
      ensures r == if !bcMode then Err(Emode) else if !(1 <= id < nextid) then Err(EbadId)
                   else Ok(())
      ensures r.Err? ==> View() == old(View())
      ensures r.Ok? ==>
        OnlyControl(old(View()), View(), id) &&
        Unpack(ControlOf(View(), id)) == Unpack(ControlOf(old(View()), id)).(halt := 0)
    {
      hide Sound, Bits, SetControl, ControlOf, Legal, Rewritten, Unpack, Code;
      r := CheckId(id);
      if r.Err? { return; }
      var tempWord := ReadControl(id);
      FlagWords(tempWord);
      WriteControl(id, tempWord & !HALT_CONT, Continue);
    }

    /** Set_Stop_On_Error. */
    method SetStopOnError(id: int) returns (r: Result<()>)
      requires Valid()
      modifies dpram
      ensures Valid()
      ensures r == if !bcMode then Err(Emode) else if !(1 <= id < nextid) then Err(EbadId)
                   else Ok(())
      ensures r.Err? ==> View() == old(View())
      ensures r.Ok? ==>
        OnlyControl(old(View()), View(), id) &&
        Unpack(ControlOf(View(), id)) == Unpack(ControlOf(old(View()), id)).(stop := 0x8000)
    {
      hide Sound, Bits, SetControl, ControlOf, Legal, Rewritten, Unpack, Code;
      r := CheckId(id);
      if r.Err? { return; }
      var tempWord := ReadControl(id);
      FlagWords(tempWord);
      WriteControl(id, tempWord | STOP_ON_ERROR, StopOnError);
    }

    /** Set_Skip. */
    method SetSkip(id: int) returns (r: Result<()>)
      requires Valid()
      modifies dpram
      ensures Valid()
      ensures r == if !bcMode then Err(Emode) else if !(1 <= id < nextid) then Err(EbadId)
                   else Ok(())
      ensures r.Err? ==> View() == old(View())
      ensures r.Ok? ==>
        OnlyControl(old(View()), View(), id) &&
        Unpack(ControlOf(View(), id)) == Unpack(ControlOf(old(View()), id)).(command := 7)
    {
      hide Sound, Bits, SetControl, ControlOf, Legal, Rewritten, Unpack, Code;
      r := CheckId(id);
      if r.Err? { return; }
      var tempWord := ReadControl(id);
      CommandWord(tempWord, SKIP);
      WriteControl(id, (tempWord & !COMMAND_CODE) | SKIP, Command(SKIP));
    }

    /** Set_Restore. */
    method SetRestore(id: int, msgtype: bv16) returns (r: Result<()>)
      requires Valid()
      modifies dpram
      ensures Valid()
      ensures (r, View()) == if bcMode then Restore(old(View()), id, msgtype) else (Err(Emode), old(View()))
    {
      hide Sound, Bits, SetControl, ControlOf, Legal, Rewritten, Code;
      r := CheckId(id);
      if r.Err? { return; }
      if msgtype >= SKIP { return Err(Einval); }
      var tempWord := ReadControl(id);
      if msgtype != commandtype[id] { return Err(Einval); }
      if Code(tempWord) != SKIP { return Err(EnoSkip); }
      TypeIsLegal(msgtype);
      CommandWord(tempWord, msgtype);
      WriteControl(id, (tempWord & !COMMAND_CODE) | msgtype, Command(msgtype));
    }

    /** Start_Frame. */
    method StartFrame(frameid: int, nummsgs: int) returns (r: Result<()>)
      requires Valid()
      modifies this`curstack, dpram
      ensures Valid() && (r.Ok? <==> bcMode && CardJumps.StartFrame(old(View()), frameid, nummsgs).0.Ok?)
      ensures r.Ok? ==> curstack == Some(CardJumps.StartFrame(old(View()), frameid, nummsgs).0.value)
      ensures r.Err? ==> curstack == old(curstack)
      ensures r.Err? ==>
        r.error == if bcMode then CardJumps.StartFrame(old(View()), frameid, nummsgs).0.error else Emode
      ensures View() == if bcMode then CardJumps.StartFrame(old(View()), frameid, nummsgs).1 else old(View())
    {
      hide Sound;
      ghost var c := View();
      SoundShape(c);
      StartKeeps(c, frameid, nummsgs);
      if !bcMode { return Err(Emode); }
      if frameid < 0 || frameid >= nextframe { return Err(FrmErange); }
      var f := framealloc[frameid];
      if nummsgs > f.msgcnt { return Err(FrmErangeCnt); }
      WriteWord(STACK_POINTER, Short(f.frameptr));
      curstack := Some(f.frameptr / 8);
      WriteWord(INSTRUCTION_COUNTER, Swapped(if nummsgs == FULLFRAME || f.msgcnt < nummsgs then f.msgcnt else nummsgs));
      return Ok(());
    }

    /** BC_Check_Alter_Msg: finds the message's entry from the started frame on, and looks at its status. */
    method CheckAlterMsg(address: nat) returns (noAlter: bool)
      requires dpram.Length == DPRAM_WORDS && (curstack.Some? ==> curstack.value <= STACK_ENTRIES)
      modifies dpram
      ensures (noAlter, dpram[..]) == Checked(old(dpram[..]), curstack, address)
    {
      if curstack == None { return false; }
      var stackptr := curstack.value;
      ghost var pointers := Pointers(dpram[..]);
      while stackptr < STACK_ENTRIES && dpram[4 * stackptr] != address
        invariant curstack.value <= stackptr <= STACK_ENTRIES && dpram[..] == old(dpram[..])
        invariant FirstFrom(pointers, stackptr, address) == FirstFrom(pointers, curstack.value, address)
      {
        stackptr := stackptr + 1;
      }
      var status := dpram[4 * stackptr + 3];
      if status != 0 && status != NO_ALTER {
        WriteWord(4 * stackptr + 3, 0);
      }
      assert old(dpram[..])[4 * stackptr + 3 := status] == old(dpram[..]);
      return status == NO_ALTER;
    }

    /** Set_Jump. */
    method SetJump(id: int, frameid: int, intcnt: int) returns (r: Result<()>)
      requires Valid() && JumpFits(View(), id)
      modifies this`commandtype, dpram
      ensures Valid()
      ensures (r, View()) ==
        if bcMode && withRts then JumpTo(old(View()), curstack, id, frameid, intcnt) else (Err(Emode), old(View()))
    {
      hide Sound, Bits, Put, Jumping.HaltedJump, Jumping.IsHalted, Continued, Limit, Checked;
      ghost var c := View();
      SoundShape(c);
      if !(bcMode && withRts) { return Err(Emode); }
      if id < 1 || id >= nextid { return Err(EbadId); }
      if frameid < 0 || frameid >= nextframe { return Err(FrmErange); }
      if intcnt > framealloc[frameid].msgcnt { return Err(FrmErangeCnt); }
      JumpRoom(c, id);
      JumpKeeps(c, curstack, id, frameid, intcnt);
      var origWord := dpram[msgalloc[id]];
      var origCtrlword := Bits(origWord);
      var tempWord := Jumping.HaltedJump(origCtrlword);
      WriteWord(msgalloc[id], Val(tempWord));
      CheckedElsewhere(c.mem, msgalloc[id], Val(tempWord), curstack, 2 * msgalloc[id]);
      var noAlter := CheckAlterMsg(2 * msgalloc[id]);
      if noAlter {
        RefusedLeaves(c.mem, curstack, 2 * msgalloc[id]);
        Rewriting(c.mem, msgalloc[id], Val(tempWord));
        WriteWord(msgalloc[id], origWord);
        return Err(EnoAlter);
      }
      WriteWord(msgalloc[id] + 1, Short(framealloc[frameid].frameptr));
      commandtype := commandtype[id := JUMP];
      var count: Word := if intcnt == FULLFRAME then Short(framealloc[frameid].msgcnt) else intcnt % 0x10000;
      WriteWord(msgalloc[id] + 2, count);
      if !Jumping.IsHalted(origCtrlword) {
        WriteWord(msgalloc[id], Val(Continued(tempWord)));
      }
      ThreeWrites(Checked(c.mem, curstack, 2 * msgalloc[id]).1, msgalloc[id], Val(tempWord),
                  Val(Jumping.FinalJump(origCtrlword)), Short(framealloc[frameid].frameptr), count);
      return Ok(());
    }

    /** Insert_Msg_Err, which does not check that its flags are error bits; only such flags keep the card sound. */
    method InsertMsgErr(id: int, flags: bv16) returns (r: Result<()>)
      requires Valid()
      requires Live(View().slots, id) ==> ModeCommandThere(View(), id)
      modifies dpram
      ensures AreErrors(flags) ==> Valid()
      ensures r == if !bcMode then Err(Emode) else if !(1 <= id < nextid) then Err(EbadId)
                   else if KindOf(old(View()), id) == JUMP then Err(Ejump) else Ok(())
      ensures r.Err? ==> View() == old(View())
      ensures r.Ok? ==>
        OnlyControl(old(View()), View(), id) &&
        FlagsInjected(ControlOf(old(View()), id), ControlOf(View(), id), AllOwnWords(old(View()), id), flags)
    {
      hide Sound, Bits, Legal, SetControl, InjectedBits, WithErrors, Unpack, KindIn, ControlOf, FlagsInjected,
          AllOwnWords, AreErrors;
      ghost var c := View();
      SoundShape(c);
      if !bcMode { return Err(Emode); }
      if id < 1 || id >= nextid { return Err(EbadId); }
      var controlword := ReadControl(id);
      var cmdtype := ReadKind(id);
      if cmdtype == JUMP { return Err(Ejump); }
      ghost var command := if cmdtype in {MODE, BRD_MODE} then CommandOf(c, id) else 0;
      var modecodeRcv := ReadModecode(id, cmdtype);
      Injection(c, id, command, modecodeRcv, flags);
      controlword := NewErrors(controlword, cmdtype, modecodeRcv, flags);
      WriteControl(id, controlword, Errors(InjectedBits(cmdtype, command, flags)));
      return Ok(());
    }

    /** The control word's code, or the recorded type of a skipped message. */
    method ReadKind(id: int) returns (cmdtype: bv16)
      requires Valid() && Live(View().slots, id) && LiveAt(View(), id)
      ensures cmdtype == KindOf(View(), id)
    {
      hide Sound, Bits;
      cmdtype := Bits(dpram[msgalloc[id]]) & 7;
      if cmdtype == SKIP { cmdtype := commandtype[id]; }
    }

    /** Whether the message is one with mode code 17. */
    method ReadModecode(id: int, cmdtype: bv16) returns (modecodeRcv: bool)
      requires Valid() && Live(View().slots, id) && ModeCommandThere(View(), id) && cmdtype == KindOf(View(), id)
      ensures modecodeRcv <==> cmdtype in {MODE, BRD_MODE} && CommandOf(View(), id) & 0x1f == 17
    {
      hide Sound, Bits, KindIn;
      modecodeRcv := false;
      if cmdtype == MODE || cmdtype == BRD_MODE {
        modecodeRcv := Bits(dpram[msgalloc[id] + 1]) & 0x1f == 17;
      }
    }

    /** The four words of a stack entry. */
    method WriteEntry(at: nat, pointer: Word, gapTime: Word, imgMult: Word)
      requires at + ENTRY_WORDS <= dpram.Length
      modifies dpram
      ensures dpram[..] == Put(old(dpram[..]), at, [pointer, gapTime, imgMult, 0])
    {
      dpram[at] := pointer;
      dpram[at + 1] := gapTime;
      dpram[at + 2] := imgMult;
      dpram[at + 3] := 0;
    }

    /** One round of Create_Frame's loop. */
    method MakeEntry(ghost c: Card, lines: seq<Line>, cur: nat) returns (checked: Result<()>)
      requires Valid() && View() == c.(mem := dpram[..]) && Sound(c) && cur < LineCount(lines)
      requires EntriesWritten(c, lines, cur, nios250, dpram[..])
      modifies dpram
      ensures checked == LineFault(c, lines, cur)
      ensures checked.Err? ==> dpram[..] == old(dpram[..])
      ensures checked.Ok? ==> EntriesWritten(c, lines, cur + 1, nios250, dpram[..])
    {
      hide Sound, EntryWords, Entry, Put, EntriesWritten, Short;
      SoundShape(c);
      if lines[cur].id >= nextid { return Err(FrmBadId); }
      if nextstack + ENTRY_WORDS * (cur + 1) > STACK_WORDS { return Err(FrmNoStackSp); }
      if nextframe >= MAXFRAMES { return Err(FrmMaxFrame); }
      var gapTime, imgMult := TimeCodes.EncodeGap(lines[cur].gaptime, nios250);
      EntryAppended(c, lines, cur, nios250, dpram[..]);
      EntryIs(msgalloc[lines[cur].id], lines[cur].gaptime, nios250);
      WriteEntry(nextstack + ENTRY_WORDS * cur, 2 * msgalloc[lines[cur].id], Short(gapTime), Short(imgMult));
      return Ok(());
    }

    /** Create_Frame. */
    method MakeFrame(lines: seq<Line>) returns (r: Result<nat>)
      requires Valid() && Terminated(lines) && (LineCount(lines) == 0 ==> nextframe < MAXFRAMES)
      modifies this`framealloc, this`nextframe, this`nextstack, this`entries, dpram
      ensures Valid()
      ensures (r, View()) == if bcMode then CreateFrame(old(View()), lines, nios250) else (Err(Emode), old(View()))
    {
      hide Sound, Put, CreateFrame, WithEntries, LineFault;
      ghost var c := View();
      SoundShape(c);
      if !bcMode { return Err(Emode); }
      CreateFrameKeeps(c, lines, nios250);
      CountIsTerminated(lines);
      NoEntries(c, lines, nios250);
      WithEntriesIsSound(c, lines, 0, nios250);
      var cur := 0;
      while lines[cur].id > 0
        modifies dpram
        invariant 0 <= cur <= LineCount(lines) < |lines|
        invariant EntriesWritten(c, lines, cur, nios250, dpram[..]) && Valid()
        invariant View() == WithEntries(c, lines, cur, nios250)
        decreases LineCount(lines) - cur
      {
        FrameCases(c, lines, cur, nios250);
        var checked := MakeEntry(c, lines, cur);
        if checked.Err? { return Err(checked.error); }
        cur := cur + 1;
        WithEntriesIsSound(c, lines, cur, nios250);
      }
      FrameCases(c, lines, cur, nios250);
      r := FinishFrame(lines, cur);
    }

    /** The end of Create_Frame. */
    method FinishFrame(lines: seq<Line>, n: nat) returns (r: Result<nat>)
      requires nextframe < MAXFRAMES == |framealloc| && n <= LineCount(lines)
      modifies this`framealloc, this`nextframe, this`nextstack, this`entries
      ensures nextframe == old(nextframe) + 1 <= MAXFRAMES == |framealloc| && r == Ok(old(nextframe))
      ensures View() == old(View()).(frames := old(View()).frames + [Frame(2 * old(nextstack), n)],
        nextstack := old(nextstack) + ENTRY_WORDS * n, entries := old(entries) + Ids(lines, n))
    {
      framealloc := framealloc[nextframe := Frame(2 * nextstack, n)];
      nextstack, entries := nextstack + ENTRY_WORDS * n, entries + Ids(lines, n);
      r := Ok(nextframe);
      nextframe := nextframe + 1;
      assert framealloc[..nextframe] == old(View()).frames + [Frame(2 * old(nextstack), n)];
    }

    /** Get_Msgentry_Status. */
    method GetMsgentryStatus(frameid: int, msgentry: int) returns (r: Result<Word>)
      requires Valid()
      modifies dpram
      ensures Valid()
      ensures (r, View()) == if bcMode then EntryStatus(old(View()), frameid, msgentry) else (Err(Emode), old(View()))
    {
      hide Sound, Tiled;
      ghost var c := View();
      SoundShape(c);
      SoundFrames(c);
      EntryStatusKeeps(c, frameid, msgentry);
      if !bcMode { return Err(Emode); }
      if frameid < 0 || frameid >= nextframe { return Err(FrmErange); }
      if msgentry < 0 { return Err(Einval); }
      if msgentry >= framealloc[frameid].msgcnt { return Err(FrmErangeCnt); }
      var at := framealloc[frameid].frameptr / 2;
      at := at + msgentry * ENTRY_WORDS;
      at := at + 3;
      var status := dpram[at];
      if status != 0 && status != NO_ALTER { WriteWord(at, 0); }
      return Ok(status);
    }

    /** Get_BC_Msgentry's search for the message that lies at an address. */
    method FindMessage(address: nat, ghost id: nat) returns (found: bool, i: nat)
      requires Valid() && Live(View().slots, id) && id < |msgalloc| && msgalloc[id] == address
      ensures found && i == id
    {
      hide Sound;
      SoundShape(View());
      MessagesAreAbove(View());
      i, found := 0, false;
      while i < nextid
        invariant 0 <= i <= id && !found
      {
        if msgalloc[i] == address {
          if i != id && i != 0 { AddressesDiffer(View(), id, i); }
          return true, i;
        }
        i := i + 1;
      }
    }

    /** Get_BC_Msgentry. */
    method GetBcMsgentry(frameid: int, msgentry: int) returns (r: Result<(Word, seq<Word>)>)
      requires Valid()
      requires 0 <= frameid < nextframe && 0 <= msgentry < framealloc[frameid].msgcnt ==>
        KindedAt(View(), EntryMessage(View(), frameid, msgentry))
      modifies dpram
      ensures Valid()
      ensures View() == if bcMode then EntryStatus(old(View()), frameid, msgentry).1 else old(View())
      ensures if bcMode then EntryAnswer(old(View()), frameid, msgentry, r) else r == Err(Emode)
    {
      hide Sound, Bits, KindIn, EntryStatus, EntryMessage, ReadMessage, Covered, EntryAddress, EntryAnswer, AnswersFor;
      ghost var c := View();
      if !bcMode { return Err(Emode); }
      StatusBounds(c, frameid, msgentry);
      var status := GetMsgentryStatus(frameid, msgentry);
      if status.Err? {
        EntryRefused(c, frameid, msgentry);
        return Err(status.error);
      }
      EntryAfterStatus(c, frameid, msgentry);
      var address := dpram[EntryAddress(framealloc[frameid], msgentry)] / 2;
      var words := ReadFrom(address, EntryMessage(c, frameid, msgentry));
      if words.Err? {
        EntryAnswered(c, frameid, msgentry, status.value, Err(words.error));
        return Err(words.error);
      }
      ReadFits(View(), EntryMessage(c, frameid, msgentry));
      var all: seq<Word> := seq(ENTRY_READ_WORDS, _ => 0);
      all := words.value + all[|words.value|..];
      r := Ok((status.value, all));
      EntryAnswered(c, frameid, msgentry, status.value, r);
    }

    /** The rest of Get_BC_Msgentry. */
    method ReadFrom(address: nat, ghost id: nat) returns (r: Result<seq<Word>>)
      requires Valid() && Live(View().slots, id) && KindedAt(View(), id) && msgalloc[id] == address
      ensures r == ReadMessage(View(), id)
    {
      hide Sound, Bits;
      SoundShape(View());
      var msgtype := Bits(dpram[address]) & 7;
      if msgtype == SKIP {
        var found, i := FindMessage(address, id);
        if !found { return Err(Einval); }
        msgtype := commandtype[i];
      }
      if msgtype == MINOR_FRAME { return Err(EminorFrame); }
      r := ReadAs(address, msgtype, id);
    }
  }

  lemma Rewrote(c: Card, id: nat, s: Setter)
    requires Sound(c) && Live(c.slots, id) && LiveAt(c, id)
    ensures SetControl(c, id, s) ==
      (Ok(()), c.(mem := c.mem[c.slots.alloc[id] := Val(Rewritten(ControlOf(c, id), s))]))
  {
    hide Sound;
  }

  /** The check does not look at the messages. */
  lemma CheckedElsewhere(mem: seq<Word>, at: nat, w: Word, curstack: Option<nat>, address: nat)
    requires BLOCK1 <= at < |mem| && (curstack.Some? ==> curstack.value <= STACK_ENTRIES)
    ensures Checked(mem[at := w], curstack, address).0 == Checked(mem, curstack, address).0
    ensures Checked(mem[at := w], curstack, address).1 == Checked(mem, curstack, address).1[at := w]
  {
    assert Pointers(mem[at := w]) == Pointers(mem);
  }

  lemma RefusedLeaves(mem: seq<Word>, curstack: Option<nat>, address: nat)
    requires PAST_STACK < |mem| && (curstack.Some? ==> curstack.value <= STACK_ENTRIES)
    requires Checked(mem, curstack, address).0
    ensures Checked(mem, curstack, address).1 == mem
  {
  }

  lemma Rewriting(mem: seq<Word>, at: nat, w: Word)
    requires at < |mem|
    ensures mem[at := w][at := mem[at]] == mem
  {
  }

  lemma ThreeWrites(mem: seq<Word>, at: nat, first: Word, w0: Word, w1: Word, w2: Word)
    requires at + 2 < |mem|
    ensures mem[at := first][at + 1 := w1][at + 2 := w2][at := w0] == Put(mem, at, [w0, w1, w2])
    ensures first == w0 ==> mem[at := first][at + 1 := w1][at + 2 := w2] == Put(mem, at, [w0, w1, w2])
  {
  }

  lemma CountIsTerminated(lines: seq<Line>)
    requires Terminated(lines)
    ensures LineCount(lines) < |lines|
  {
    var i :| 0 <= i < |lines| && lines[i].id <= 0;
    assert i >= LineCount(lines);
  }

  /** The entries of the first lines are in the stack, above the frames there are. */
  ghost predicate EntriesWritten(c: Card, lines: seq<Line>, n: nat, nios250: bool, mem: seq<Word>)
    requires Sound(c)
  {
    && n <= LineCount(lines) && (forall k :: 0 <= k < n ==> LineFault(c, lines, k).Ok?)
    && mem == WithEntries(c, lines, n, nios250).mem
  }

  lemma EntryIs(address: nat, gap: nat, nios250: bool)
    requires address < 0x8000
    ensures Entry(address, gap, nios250) ==
      [2 * address, Short(TimeCodes.GapTime(gap, nios250)), Short(TimeCodes.ImgMult(gap, nios250)), 0]
  {
    hide Short;
  }

  lemma WithEntriesIsSound(c: Card, lines: seq<Line>, n: nat, nios250: bool)
    requires Sound(c) && n <= LineCount(lines) && forall k :: 0 <= k < n ==> LineFault(c, lines, k).Ok?
    ensures var c' := WithEntries(c, lines, n, nios250); Sound(c') && c' == c.(mem := c'.mem)
  {
    hide Sound, EntryWords, Put, LineFault, Entry;
    LinesPointAtLive(c, lines, n);
    WriteAboveKeeps(c, EntryWords(c.slots.alloc, lines, n, nios250));
  }

  lemma NoEntries(c: Card, lines: seq<Line>, nios250: bool)
    requires Sound(c)
    ensures EntriesWritten(c, lines, 0, nios250, c.mem)
  {
    hide Sound, Put, LineFault;
    SoundShape(c);
    LinesPointAtLive(c, lines, 0);
    PutNothing(c.mem, c.nextstack);
  }

  lemma PutNothing(mem: seq<Word>, at: nat)
    requires at <= |mem|
    ensures Put(mem, at, []) == mem
  {
  }

  lemma EntryAppended(c: Card, lines: seq<Line>, n: nat, nios250: bool, mem: seq<Word>)
    requires Sound(c) && n < LineCount(lines) && EntriesWritten(c, lines, n, nios250, mem) && LineFault(c, lines, n).Ok?
    ensures 0 < lines[n].id < |c.slots.alloc| && c.slots.alloc[lines[n].id] < 0x8000
    ensures c.nextstack + ENTRY_WORDS * n + ENTRY_WORDS <= |mem|
    ensures EntriesWritten(c, lines, n + 1, nios250,
      Put(mem, c.nextstack + ENTRY_WORDS * n, Entry(c.slots.alloc[lines[n].id], lines[n].gaptime, nios250)))
  {
    hide Sound, Put, Entry, LineFault;
    LinesPointAtLive(c, lines, n);
    LinesPointAtLive(c, lines, n + 1);
    PutTwice(c.mem, c.nextstack, EntryWords(c.slots.alloc, lines, n, nios250),
             Entry(c.slots.alloc[lines[n].id], lines[n].gaptime, nios250));
  }

  lemma PutTwice(mem: seq<Word>, at: nat, first: seq<Word>, second: seq<Word>)
    requires at + |first| + |second| <= |mem|
    ensures Put(Put(mem, at, first), at + |first|, second) == Put(mem, at, first + second)
  {
  }

  /** Create_Frame, once it has got as far as line n. */
  lemma FrameCases(c: Card, lines: seq<Line>, n: nat, nios250: bool)
    requires Sound(c) && Terminated(lines) && (LineCount(lines) == 0 ==> |c.frames| < MAXFRAMES)
    requires n <= LineCount(lines) && forall k :: 0 <= k < n ==> LineFault(c, lines, k).Ok?
    ensures n < LineCount(lines) && LineFault(c, lines, n).Err? ==>
      CreateFrame(c, lines, nios250) == (Err(LineFault(c, lines, n).error), WithEntries(c, lines, n, nios250))
    ensures n == LineCount(lines) ==> |c.frames| < MAXFRAMES
    ensures n == LineCount(lines) ==>
      && CreateFrame(c, lines, nios250).0 == Ok(|c.frames|)
      && CreateFrame(c, lines, nios250).1 ==
           WithEntries(c, lines, n, nios250).(frames := c.frames + [Frame(2 * c.nextstack, n)],
                                              nextstack := c.nextstack + ENTRY_WORDS * n,
                                              entries := c.entries + Ids(lines, n))
  {
    if n == LineCount(lines) && n > 0 { assert LineFault(c, lines, n - 1).Ok?; }
    if n == LineCount(lines) || LineFault(c, lines, n).Err? { GoodLinesIs(c, lines, 0, n); }
    hide Sound, EntryWords, Put;
  }

  /** Control word and data, in either order, make up the message. */
  lemma TwoWrites(mem: seq<Word>, at: nat, control: Word, data: seq<Word>)
    requires at + 1 + |data| <= |mem|
    ensures Put(mem, at + 1, data)[at := control] == Put(mem, at, [control] + data)
    ensures Put(mem[at := control], at + 1, data) == Put(mem, at, [control] + data)
  {
  }

  lemma ReCreatedRoomIs(cmdtype: bv16, command: bv16)
    ensures ReCreatedRoom(cmdtype, command) ==
      if Known(cmdtype) then Room(cmdtype, command) else if cmdtype == MINOR_FRAME then 0 else WordCount(command) + 2
  {
  }

  lemma CheckedKind(kind: bv16, data: seq<Word>)
    requires |data| >= 2 && KindChecked(kind, data).Ok?
    ensures Known(kind) || kind == MINOR_FRAME
    ensures RoomFor(kind, data) == if kind == MINOR_FRAME then 0 else Room(kind, Bits(data[0]))
    ensures 1 + RoomFor(kind, data) <= LONGEST
  {
    RoomForFits(kind, data);
    hide Room, Bits;
  }

  /** Create_1553_Message, case by case. */
  lemma CreateCases(c: Card, expanded: bool, cmdtype: bv16, data: seq<Word>)
    requires Sound(c) && |data| >= 2 && Supplied(RoomFor(cmdtype, data), data)
    ensures AllocOk(c.slots)
    ensures var n := Chosen(c.slots, expanded, 1 + RoomFor(cmdtype, data));
      && (n != 0 && c.slots.nextid < MSGMAX ==> FreeAt(c.slots, n) + 1 + RoomFor(cmdtype, data) <= |c.mem|)
      && CreateMessage(c, expanded, cmdtype, data) ==
           if KindChecked(cmdtype, data).Err? then (Err(KindChecked(cmdtype, data).error), c)
           else if c.slots.nextid == MSGMAX then (Err(Msg2Many), c)
           else if n != 0 then (Ok(c.slots.nextid), WithMessage(c, n, cmdtype, data[..RoomFor(cmdtype, data)]))
           else (Err(MsgNoSpace), c.(slots := AfterNoFit(c.slots, expanded)))
  {
    hide Sound, RoomFor, AllocOk, KindChecked, Chosen, AfterNoFit, IsFirstFit, NoFit, FreeAt, WithMessage;
    SoundShape(c);
    ChosenIsFirstFit(c.slots, expanded, 1 + RoomFor(cmdtype, data));
  }
}
