/**
 Bus Controller messages: how many words each kind takes, as the bus standard lays them out and as
 five functions of the library each work it out for themselves, and the fields of a message's
 control word with the functions that set them.
 */
module MessageLayout {

  const RT2BC: bv16 := 0
  const BC2RT: bv16 := 1
  const RT2RT: bv16 := 2
  const MODE: bv16 := 3
  const BRD_RCV: bv16 := 4
  const BRD_RT2RT: bv16 := 5
  const BRD_MODE: bv16 := 6
  const SKIP: bv16 := 7
  const JUMP: bv16 := 8
  const MINOR_FRAME: bv16 := 15
  const COMMAND_CODE: bv16 := 0x000F
  const TRANSMIT_BIT: bv16 := 0x0400

  // ---- The layout of the standard ----

  predicate Known(kind: bv16) { kind in {RT2BC, BC2RT, RT2RT, MODE, BRD_RCV, BRD_RT2RT, BRD_MODE} }

  /** Section 4.3.3.5.1.5 of MIL-STD-1553B: the word count field, where 0 stands for 32. */
  function WordCount(command: bv16): (n: nat)
    ensures 1 <= n <= 32
  {
    var field := (command & 0x1f) as nat;
    if field == 0 then 32 else field
  }

  /** Section 4.3.3.6: an RT to RT transfer has two command words. */
  function Commands(kind: bv16): nat { if kind in {RT2RT, BRD_RT2RT} then 2 else 1 }

  /** Every addressed RT answers with a status word; nobody answers a broadcast. */
  function Statuses(kind: bv16): nat
  {
    if kind == RT2RT then 2 else if kind in {BRD_RCV, BRD_MODE} then 0 else 1
  }

  /** A mode command is given room for its one data word, whether or not it has one. */
  function DataWords(kind: bv16, command: bv16): nat
  {
    if kind in {MODE, BRD_MODE} then 1 else WordCount(command)
  }

  function Words(kind: bv16, command: bv16): nat { Commands(kind) + Statuses(kind) + DataWords(kind, command) }

  /** What the library sets aside after the control word: one word too many for a broadcast mode command. */
  function Room(kind: bv16, command: bv16): nat { Words(kind, command) + if kind == BRD_MODE then 1 else 0 }

  // ---- The library's five ways to get there ----

  /** Create_1553_Message. */
  method CreatedSize(cmdtype: bv16, data0: bv16) returns (size: nat)
    requires Known(cmdtype) || cmdtype == MINOR_FRAME
    ensures size == if cmdtype == MINOR_FRAME then 0 else Room(cmdtype, data0)
  {
    if cmdtype == MINOR_FRAME { return 0; }
    size := WordCount(data0);
    size := size + 2;
    if cmdtype == RT2RT { size := size + 2; }
    if cmdtype == BRD_RT2RT { size := size + 1; }
    if cmdtype == BRD_RCV { size := size - 1; }
    if cmdtype == BRD_MODE || cmdtype == MODE { size := 3; }
  }

  /** Only the command code is looked at to tell the kind... */
  function Code(cmdtype: bv16): bv16 { cmdtype & COMMAND_CODE }

  /** Re_Create_Message: ...but the size goes by the whole of cmdtype. */
  method ReCreatedSize(cmdtype: bv16, data0: bv16) returns (size: nat)
    ensures Known(cmdtype) ==> size == Room(cmdtype, data0)
    ensures cmdtype == MINOR_FRAME ==> size == 0
    ensures !Known(cmdtype) && cmdtype != MINOR_FRAME ==> size == WordCount(data0) + 2
  {
    size := (data0 & 0x1f) as nat;
    if cmdtype != MINOR_FRAME && size == 0 { size := 32; }
    size := size + 2;
    if cmdtype == RT2RT { size := size + 2; }
    if cmdtype == BRD_RT2RT { size := size + 1; }
    if cmdtype == BRD_RCV { size := size - 1; }
    if cmdtype == BRD_MODE || cmdtype == MODE { size := 3; }
    if cmdtype == MINOR_FRAME { size := 0; }
  }

  /** What Re_Create_Message takes a message of this cmdtype to need. */
  function ReCreatedRoom(cmdtype: bv16, data0: bv16): nat
  {
    if Known(cmdtype) then Room(cmdtype, data0) else if cmdtype == MINOR_FRAME then 0 else WordCount(data0) + 2
  }

  /** That is what the message needs unless control bits come along and its kind is not laid out plainly. */
  lemma ReCreatedRoomIsRightWhen(cmdtype: bv16, data0: bv16)
    requires Known(Code(cmdtype))
    ensures ReCreatedRoom(cmdtype, data0) == Room(Code(cmdtype), data0) <==>
      || cmdtype == Code(cmdtype) || Code(cmdtype) in {RT2BC, BC2RT}
      || (Code(cmdtype) in {MODE, BRD_MODE} && WordCount(data0) == 1)
  {
  }

  /** An RT to RT message on bus A is taken to be two words shorter than it is. */
  lemma ReCreatedTooShort()
    ensures ReCreatedRoom(0x80 + RT2RT, 5) + 2 == Room(RT2RT, 5) && Code(0x80 + RT2RT) == RT2RT
  {
  }

  /** Read_Message and Get_BC_Msgentry, which read from the command word on. */
  method ReadCount(msgtype: bv16, command: bv16) returns (wdcnt: nat)
    ensures wdcnt == Words(msgtype, command)
  {
    wdcnt := WordCount(command);
    wdcnt := wdcnt + 1;
    if msgtype != BRD_RCV { wdcnt := wdcnt + 1; }
    if msgtype == RT2RT { wdcnt := wdcnt + 2; }
    if msgtype == BRD_RT2RT { wdcnt := wdcnt + 1; }
    if msgtype == MODE { wdcnt := 3; }
    if msgtype == BRD_MODE { wdcnt := 2; }
  }

  /** Alter_Message: the words from `offset` (counted from the control word) on are replaced. */
  method AlteredSpan(msgtype: bv16, command: bv16) returns (offset: nat, wdcnt: nat)
    ensures offset == 1 + Commands(msgtype)
    ensures offset + wdcnt == 1 + Room(msgtype, command)
  {
    offset := 2;
    wdcnt := WordCount(command);
    if msgtype != BRD_RCV { wdcnt := wdcnt + 1; }
    if msgtype == RT2RT || msgtype == BRD_RT2RT {
      offset := offset + 1;
      if msgtype == RT2RT { wdcnt := wdcnt + 1; }
    }
    if msgtype == MODE || msgtype == BRD_MODE { wdcnt := 2; }
  }

  /** The longest message, an RT to RT transfer of 32 words, takes 37 words with its control word. */
  lemma LongestMessage(kind: bv16, command: bv16)
    ensures Words(kind, command) <= Room(kind, command) <= 36
    ensures Room(RT2RT, 0) == 36
  {
  }

  // ---- The command word ----

  /** Alter_Cmd's new command word; 32 means to keep the old address or subaddress. */
  function AlteredCommand(command: bv16, rt: bv16, sa: bv16): bv16
  {
    var c := if rt != 32 then (command & 0x07ff) | (rt << 11) else command;
    if sa != 32 then (c & 0xfc1f) | (sa << 5) else c
  }

  function RtAddress(command: bv16): bv16 { command >> 11 }

  function Subaddress(command: bv16): bv16 { (command >> 5) & 0x1f }

  /** The new address and subaddress are in place; direction and word count are as before. */
  lemma AlteredCommandFields(command: bv16, rt: bv16, sa: bv16)
    requires rt <= 32 && sa <= 32
    ensures var c := AlteredCommand(command, rt, sa);
      && c & 0x1f == command & 0x1f && c & TRANSMIT_BIT == command & TRANSMIT_BIT
      && RtAddress(c) == (if rt == 32 then RtAddress(command) else rt)
      && Subaddress(c) == (if sa == 32 then Subaddress(command) else sa)
  {
  }

  lemma AlteredCommandKeepsCount(command: bv16, rt: bv16, sa: bv16)
    requires rt <= 32 && sa <= 32
    ensures WordCount(AlteredCommand(command, rt, sa)) == WordCount(command)
  {
    AlteredCommandFields(command, rt, sa);
    hide AlteredCommand;
  }

  // ---- The control word ----

  const ERRFLAGS: bv16 := 0x5F00
  const DATA_ERR: bv16 := 0x0100
  const RETRY_MASK: bv16 := 0x0070
  const RETRY_ALT_BUS: bv16 := 0x0040
  const XMT_BUS_A: bv16 := 0x0080
  const HALT_CONT: bv16 := 0x2000
  const STOP_ON_ERROR: bv16 := 0x8000

  datatype Control = Control(command: bv16, retry: bv16, bus: bv16, errors: bv16, halt: bv16, stop: bv16)

  predicate InFields(c: Control)
  {
    && c.command & !COMMAND_CODE == 0 && c.retry & !RETRY_MASK == 0 && c.bus & !XMT_BUS_A == 0
    && c.errors & !ERRFLAGS == 0 && c.halt & !HALT_CONT == 0 && c.stop & !STOP_ON_ERROR == 0
  }

  function Unpack(w: bv16): Control
  {
    Control(w & COMMAND_CODE, w & RETRY_MASK, w & XMT_BUS_A, w & ERRFLAGS, w & HALT_CONT, w & STOP_ON_ERROR)
  }

  function Pack(c: Control): bv16 { c.command | c.retry | c.bus | c.errors | c.halt | c.stop }

  /** The six fields take up all sixteen bits, each bit once. */
  lemma FieldsPartition(w: bv16, c: Control)
    ensures InFields(Unpack(w)) && Pack(Unpack(w)) == w
    ensures InFields(c) ==> Unpack(Pack(c)) == c
  {
  }

  datatype Setter =
    | Command(code: bv16)                    // Set_Skip, Set_Restore
    | Retry(num: bv16, altchan: bv16)        // Set_Retry
    | Bus(channel: bv16)                     // Set_Bus
    | Errors(flags: bv16)                    // Insert_Msg_Err
    | Halt | Continue                        // Set_Halt, Set_Continue
    | StopOnError                            // Set_Stop_On_Error

  predicate Legal(s: Setter)
  {
    match s
    case Command(code) => code & !COMMAND_CODE == 0
    case Retry(num, altchan) => num <= 3 && altchan in {0, RETRY_ALT_BUS}
    case Bus(channel) => channel in {0, XMT_BUS_A}
    case Errors(flags) => flags & !ERRFLAGS == 0
    case _ => true
  }

  function WithCommand(w: bv16, code: bv16): bv16 { (w & !COMMAND_CODE) | code }

  function RetryBits(num: bv16, altchan: bv16): bv16 { altchan | (num << 4) }

  function WithRetry(w: bv16, num: bv16, altchan: bv16): bv16 { (w & !RETRY_MASK) | RetryBits(num, altchan) }

  function WithBus(w: bv16, channel: bv16): bv16 { (w & !XMT_BUS_A) | channel }

  function WithErrors(w: bv16, flags: bv16): bv16 { (w & !ERRFLAGS) | flags }

  function Halted(w: bv16): bv16 { w | HALT_CONT }

  function Continued(w: bv16): bv16 { w & !HALT_CONT }

  function Stopping(w: bv16): bv16 { w | STOP_ON_ERROR }

  /** The control word as the library's function rewrites it. */
  function Rewritten(w: bv16, s: Setter): bv16
  {
    match s
    case Command(code) => WithCommand(w, code)
    case Retry(num, altchan) => WithRetry(w, num, altchan)
    case Bus(channel) => WithBus(w, channel)
    case Errors(flags) => WithErrors(w, flags)
    case Halt => Halted(w)
    case Continue => Continued(w)
    case StopOnError => Stopping(w)
  }

  /** The record with the setter's own field replaced. */
  function Updated(c: Control, s: Setter): Control
  {
    match s
    case Command(code) => c.(command := code)
    case Retry(num, altchan) => c.(retry := RetryBits(num, altchan))
    case Bus(channel) => c.(bus := channel)
    case Errors(flags) => c.(errors := flags)
    case Halt => c.(halt := HALT_CONT)
    case Continue => c.(halt := 0)
    case StopOnError => c.(stop := STOP_ON_ERROR)
  }

  function Field(s: Setter): nat
  {
    match s case Command(_) => 0 case Retry(_, _) => 1 case Bus(_) => 2 case Errors(_) => 3
            case Halt => 4 case Continue => 4 case StopOnError => 5
  }

  /** A setter replaces its own field and preserves the other five. */
  lemma SetterIsUpdate(w: bv16, s: Setter)
    requires Legal(s)
    ensures Unpack(Rewritten(w, s)) == Updated(Unpack(w), s)
  {
    hide WithCommand, WithRetry, RetryBits, WithBus, WithErrors, Halted, Continued, Stopping, Unpack;
    match s
    case Command(code) => CommandIsUpdate(w, code);
    case Retry(num, altchan) => RetryIsUpdate(w, num, altchan);
    case Bus(channel) => BusIsUpdate(w, channel);
    case Errors(flags) => ErrorsIsUpdate(w, flags);
    case Halt => HaltIsUpdate(w);
    case Continue => ContinueIsUpdate(w);
    case StopOnError => StopIsUpdate(w);
  }

  lemma CommandIsUpdate(w: bv16, code: bv16)
    requires code & !COMMAND_CODE == 0
    ensures Unpack(WithCommand(w, code)) == Unpack(w).(command := code)
  {}

  lemma RetryIsUpdate(w: bv16, num: bv16, altchan: bv16)
    requires num <= 3 && altchan in {0, RETRY_ALT_BUS}
    ensures Unpack(WithRetry(w, num, altchan)) == Unpack(w).(retry := RetryBits(num, altchan))
  {
    RetryBitsFit(num, altchan);
    hide RetryBits;
    RetryFieldIsUpdate(w, RetryBits(num, altchan));
  }

  lemma RetryBitsFit(num: bv16, altchan: bv16)
    requires num <= 3 && altchan in {0, RETRY_ALT_BUS}
    ensures RetryBits(num, altchan) & !RETRY_MASK == 0
  {}

  lemma RetryFieldIsUpdate(w: bv16, bits: bv16)
    requires bits & !RETRY_MASK == 0
    ensures Unpack((w & !RETRY_MASK) | bits) == Unpack(w).(retry := bits)
  {}

  lemma BusIsUpdate(w: bv16, channel: bv16)
    requires channel in {0, XMT_BUS_A}
    ensures Unpack(WithBus(w, channel)) == Unpack(w).(bus := channel)
  {}

  lemma ErrorsIsUpdate(w: bv16, flags: bv16)
    requires flags & !ERRFLAGS == 0
    ensures Unpack(WithErrors(w, flags)) == Unpack(w).(errors := flags)
  {}

  lemma HaltIsUpdate(w: bv16)
    ensures Unpack(Halted(w)) == Unpack(w).(halt := HALT_CONT)
  {}

  lemma ContinueIsUpdate(w: bv16)
    ensures Unpack(Continued(w)) == Unpack(w).(halt := 0)
  {}

  lemma StopIsUpdate(w: bv16)
    ensures Unpack(Stopping(w)) == Unpack(w).(stop := STOP_ON_ERROR)
  {}

  function Stray(flags: bv16): bv16 { flags & !ERRFLAGS }

  function Lawful(flags: bv16): bv16 { flags & ERRFLAGS }

  /** Insert_Msg_Err does not check its flags: the other fields survive exactly if stray bits are set already. */
  lemma ErrorsPreserveWhen(w: bv16, flags: bv16)
    ensures Unpack(WithErrors(w, flags)) == Unpack(w).(errors := Lawful(flags)) <==> Stray(flags) & !w == 0
  {
    hide Unpack, WithErrors, Lawful, Stray;
    StrayBits(w, flags);
    ErrorsIsUpdate(w, Lawful(flags));
    PackUnpack(WithErrors(w, flags));
    PackUnpack(WithErrors(w, Lawful(flags)));
  }

  lemma StrayBits(w: bv16, flags: bv16)
    ensures WithErrors(w, flags) == WithErrors(w, Lawful(flags)) <==> Stray(flags) & !w == 0
    ensures Lawful(flags) & !ERRFLAGS == 0
  {}

  lemma PackUnpack(w: bv16)
    ensures Pack(Unpack(w)) == w
  {}

  /** So setters of different fields may be called in either order. */
  lemma SettersCommute(w: bv16, s: Setter, t: Setter)
    requires Legal(s) && Legal(t) && Field(s) != Field(t)
    ensures Rewritten(Rewritten(w, s), t) == Rewritten(Rewritten(w, t), s)
  {
    hide Rewritten, Unpack, Pack, Legal, RetryBits;
    SetterIsUpdate(w, s);
    SetterIsUpdate(w, t);
    SetterIsUpdate(Rewritten(w, s), t);
    SetterIsUpdate(Rewritten(w, t), s);
    PackUnpack(Rewritten(Rewritten(w, s), t));
    PackUnpack(Rewritten(Rewritten(w, t), s));
  }

  function AllRewritten(w: bv16, setters: seq<Setter>): bv16
  {
    if setters == [] then w else Rewritten(AllRewritten(w, setters[..|setters| - 1]), setters[|setters| - 1])
  }

  function AllUpdated(c: Control, setters: seq<Setter>): Control
  {
    if setters == [] then c else Updated(AllUpdated(c, setters[..|setters| - 1]), setters[|setters| - 1])
  }

  function FieldOf(c: Control, field: nat): bv16
  {
    if field == 0 then c.command else if field == 1 then c.retry else if field == 2 then c.bus
    else if field == 3 then c.errors else if field == 4 then c.halt else c.stop
  }

  function Setters(setters: seq<Setter>, field: nat): seq<Setter>
  {
    if setters == [] then []
    else
      var before := Setters(setters[..|setters| - 1], field);
      if Field(setters[|setters| - 1]) == field then before + [setters[|setters| - 1]] else before
  }

  lemma UpdateOwnField(c: Control, d: Control, s: Setter)
    ensures FieldOf(Updated(c, s), Field(s)) == FieldOf(Updated(d, s), Field(s))
  {
  }

  lemma UpdateOtherField(c: Control, s: Setter, field: nat)
    requires field < 6 && field != Field(s)
    ensures FieldOf(Updated(c, s), field) == FieldOf(c, field)
  {
    hide RetryBits;
  }

  /** After any calls, each field is what that field's own calls alone would have made of it. */
  lemma {:induction false} FieldsAreIndependent(w: bv16, setters: seq<Setter>, field: nat)
    requires field < 6 && forall i :: 0 <= i < |setters| ==> Legal(setters[i])
    ensures Unpack(AllRewritten(w, setters)) == AllUpdated(Unpack(w), setters)
    ensures FieldOf(Unpack(AllRewritten(w, setters)), field) ==
            FieldOf(Unpack(AllRewritten(w, Setters(setters, field))), field)
  {
    hide Rewritten, Unpack, Legal, Updated, RetryBits;
    if setters != [] {
      var before, last := setters[..|setters| - 1], setters[|setters| - 1];
      FieldsAreIndependent(w, before, field);
      SetterIsUpdate(AllRewritten(w, before), last);
      var own := Setters(before, field);
      if Field(last) == field {
        SetterIsUpdate(AllRewritten(w, own), last);
        UpdateOwnField(Unpack(AllRewritten(w, before)), Unpack(AllRewritten(w, own)), last);
        assert (own + [last])[..|own|] == own;
      } else {
        UpdateOtherField(Unpack(AllRewritten(w, before)), last, field);
      }
    }
  }

  /** Restoring a message to its recorded type undoes skipping it. */
  lemma RestoreUndoesSkip(w: bv16, recorded: bv16)
    requires recorded < SKIP && w & COMMAND_CODE == recorded
    ensures Rewritten(w, Command(SKIP)) & COMMAND_CODE == SKIP
    ensures Rewritten(Rewritten(w, Command(SKIP)), Command(recorded)) == w
  {
  }
}
