/**
 Interrupt accounting of the 4000 and 1394 boards: the counters and the shadow register that the
 interrupt routine fills, and the ioctl that reports the shadow register and then resets it.
 */
module Interrupts {

  const MAX_BANKS := 16
  const MAX_INTERRUPT_BITS := 9
  const WRAP := 0x1_0000_0000
  const DMA_INT_MASK: bv32 := 0x3
  const GLOBAL_DMA_INT_MASK: bv16 := 0x300

  datatype BoardType = Board4000 | Board1394

  /** A bit for every module whose interrupt the board can signal. */
  function FullMask(board: BoardType, expanded: bool): bv16
  {
    match board
    case Board1394 => 0xF
    case Board4000 => if expanded then 0x1FF else 0x1F
  }

  /** The interrupt bit of a module. */
  function ModuleBit(mod: nat): bv16
    requires mod < MAX_INTERRUPT_BITS
  {
    match mod
    case 0 => 0x1 case 1 => 0x2 case 2 => 0x4 case 3 => 0x8 case 4 => 0x10
    case 5 => 0x20 case 6 => 0x40 case 7 => 0x80 case 8 => 0x100
  }

  function Merged(a: bv16, b: bv16): bv16 { a | b }

  /** The bits of the modules below `mod`. */
  function BitsBelow(mod: nat): bv16
    requires mod <= MAX_INTERRUPT_BITS
  {
    if mod == 0 then 0 else Merged(BitsBelow(mod - 1), ModuleBit(mod - 1))
  }

  /** What assigning to the one-byte shadow register keeps of a word. */
  function LowByte(w: bv16): bv8 { (w & 0xff) as bv8 }

  /** The board signals `bit`, and it is one of the board's. */
  predicate Signals(status: bv16, mask: bv16, bit: bv16) { mask & bit != 0 && status & bit != 0 }

  /** The signalled bits among `of`. */
  function Signalled(status: bv16, mask: bv16, of: bv16): bv16 { status & mask & of }

  lemma SingleBit(status: bv16, mask: bv16, bit: bv16)
    requires bit in {0x1, 0x2, 0x4, 0x8, 0x10, 0x20, 0x40, 0x80, 0x100}
    ensures Signalled(status, mask, bit) == if Signals(status, mask, bit) then bit else 0
  {
  }

  lemma SignalledOfMerged(status: bv16, mask: bv16, a: bv16, b: bv16)
    ensures Signalled(status, mask, Merged(a, b)) == Merged(Signalled(status, mask, a), Signalled(status, mask, b))
    ensures Merged(Signalled(status, mask, a), 0) == Signalled(status, mask, a)
  {
  }

  lemma SignalledSplits(status: bv16, mask: bv16, below: bv16, bit: bv16)
    requires bit in {0x1, 0x2, 0x4, 0x8, 0x10, 0x20, 0x40, 0x80, 0x100}
    ensures Signalled(status, mask, Merged(below, bit)) ==
      if Signals(status, mask, bit) then Merged(Signalled(status, mask, below), bit) else Signalled(status, mask, below)
  {
    hide Signalled, Merged, Signals;
    SingleBit(status, mask, bit);
    SignalledOfMerged(status, mask, below, bit);
  }

  lemma LowByteOfMerged(a: bv16, b: bv16)
    ensures LowByte(Merged(a, b)) == Or(LowByte(a), LowByte(b))
  {
  }

  lemma OneBitMore(status: bv16, mask: bv16, mod: nat)
    requires mod < MAX_INTERRUPT_BITS
    ensures var below := LowByte(Signalled(status, mask, BitsBelow(mod)));
      LowByte(Signalled(status, mask, BitsBelow(mod + 1))) ==
        if Signals(status, mask, ModuleBit(mod)) then Or(below, LowByte(ModuleBit(mod))) else below
  {
    hide ModuleBit, Signalled, Signals, LowByte, Merged, Or, BitsBelow;
    OneBit(mod);
    SignalledSplits(status, mask, BitsBelow(mod), ModuleBit(mod));
    LowByteOfMerged(Signalled(status, mask, BitsBelow(mod)), ModuleBit(mod));
  }

  lemma OneBit(mod: nat)
    requires mod < MAX_INTERRUPT_BITS
    ensures BitsBelow(mod + 1) == Merged(BitsBelow(mod), ModuleBit(mod))
    ensures ModuleBit(mod) in {0x1, 0x2, 0x4, 0x8, 0x10, 0x20, 0x40, 0x80, 0x100}
  {
  }

  lemma AllBits(status: bv16, board: BoardType, expanded: bool)
    ensures Signalled(status, FullMask(board, expanded), BitsBelow(MAX_INTERRUPT_BITS)) ==
            status & FullMask(board, expanded)
  {
    assert BitsBelow(5) == 0x1F;
    assert BitsBelow(9) == 0x1FF;
  }

  /** Bit m of the interrupt register is on. */
  predicate BitOn(status: bv16, m: nat)
    requires m < 16
  {
    (status >> m) & 1 == 1
  }

  /** Bit m of the shadow register is on. */
  predicate ShadowOn(shadow: bv8, m: nat)
    requires m < 8
  {
    (shadow >> m) & 1 == 1
  }

  /** The modules that a board's register can name: four on a 1394, five or, expanded, nine on a 4000. */
  function Modules(board: BoardType, expanded: bool): nat
  {
    if board == Board1394 then 4 else if expanded then 9 else 5
  }

  /** Module m is signalled just if the board has it and bit m is on. */
  lemma SignalledModule(status: bv16, board: BoardType, expanded: bool, m: nat)
    requires m < MAX_INTERRUPT_BITS
    ensures Signals(status, FullMask(board, expanded), ModuleBit(m)) <==>
            m < Modules(board, expanded) && BitOn(status, m)
  {
    if m == 0 {} else if m == 1 {} else if m == 2 {} else if m == 3 {} else if m == 4 {} else if m == 5 {}
    else if m == 6 {} else if m == 7 {} else { assert m == 8; }
  }

  /** The bits the routine puts in the shadow register; the ninth has no room there. */
  function ShadowOf(status: bv16, board: BoardType, expanded: bool): bv8 { LowByte(status & FullMask(board, expanded)) }

  /** Of the first eight modules, those signalled are added to the shadow register. */
  lemma ShadowedModule(shadow: bv8, status: bv16, board: BoardType, expanded: bool, m: nat)
    requires m < 8
    ensures ShadowOn(Or(shadow, ShadowOf(status, board, expanded)), m) <==>
            ShadowOn(shadow, m) || (m < Modules(board, expanded) && BitOn(status, m))
  {
    hide ShadowOn, LowByte, Or, FullMask, BitOn;
    EitherOn(shadow, LowByte(status & FullMask(board, expanded)), m);
    LowByteOn(status & FullMask(board, expanded), m);
    MaskedOn(status, board, expanded, m);
  }

  lemma EitherOn(a: bv8, b: bv8, m: nat)
    requires m < 8
    ensures ShadowOn(Or(a, b), m) <==> ShadowOn(a, m) || ShadowOn(b, m)
  {
    if m == 0 {} else if m == 1 {} else if m == 2 {} else if m == 3 {} else if m == 4 {} else if m == 5 {}
    else if m == 6 {} else { assert m == 7; }
  }

  lemma LowByteOn(w: bv16, m: nat)
    requires m < 8
    ensures ShadowOn(LowByte(w), m) <==> BitOn(w, m)
  {
    if m == 0 {} else if m == 1 {} else if m == 2 {} else if m == 3 {} else if m == 4 {} else if m == 5 {}
    else if m == 6 {} else { assert m == 7; }
  }

  lemma MaskedOn(status: bv16, board: BoardType, expanded: bool, m: nat)
    requires m < MAX_INTERRUPT_BITS
    ensures BitOn(status & FullMask(board, expanded), m) <==> m < Modules(board, expanded) && BitOn(status, m)
  {
    if m == 0 {} else if m == 1 {} else if m == 2 {} else if m == 3 {} else if m == 4 {} else if m == 5 {}
    else if m == 6 {} else if m == 7 {} else { assert m == 8; }
  }

  /** No module is signalled just if no bit of the board's modules is on. */
  lemma NoneSignalled(status: bv16, board: BoardType, expanded: bool)
    ensures status & FullMask(board, expanded) == 0 <==>
      forall m :: 0 <= m < Modules(board, expanded) ==> !BitOn(status, m)
  {
    var n := Modules(board, expanded);
    if forall m :: 0 <= m < n ==> !BitOn(status, m) {
      assert !BitOn(status, 0) && !BitOn(status, 1) && !BitOn(status, 2) && !BitOn(status, 3);
      if n > 4 { assert !BitOn(status, 4); }
      if n > 5 { assert !BitOn(status, 5) && !BitOn(status, 6) && !BitOn(status, 7) && !BitOn(status, 8); }
    } else {
      var m :| 0 <= m < n && BitOn(status, m);
      if m == 0 {} else if m == 1 {} else if m == 2 {} else if m == 3 {} else if m == 4 {} else if m == 5 {}
      else if m == 6 {} else if m == 7 {} else { assert m == 8; }
    }
  }

  // ---- Counters ----

  function Inc(n: nat): nat { (n + 1) % WRAP }

  function IncTimes(k: nat, n: nat): nat { if k == 0 then n else Inc(IncTimes(k - 1, n)) }

  function Lap(n: nat): nat { (n + 1) / WRAP }

  lemma IncLap(n: nat)
    ensures Inc(n) == n + 1 - WRAP * Lap(n)
  {
  }

  /** The counters count modulo 2^32. */
  lemma {:induction false} CountsModulo(k: nat, n: nat)
    ensures IncTimes(k, n) == if k == 0 then n else (n + k) % 0x1_0000_0000
  {
    if k > 0 {
      CountsModulo(k - 1, n);
      ModuloOneMore(n + k - 1);
    }
  }

  lemma ModuloOneMore(a: nat)
    ensures (a % 0x1_0000_0000 + 1) % 0x1_0000_0000 == (a + 1) % 0x1_0000_0000
  {
    assert a == a / 0x1_0000_0000 * 0x1_0000_0000 + a % 0x1_0000_0000;
  }

  function Sum(counts: seq<nat>): nat
  {
    if counts == [] then 0 else Sum(counts[..|counts| - 1]) + counts[|counts| - 1]
  }

  lemma {:induction false} SumUpdate(counts: seq<nat>, i: nat, v: nat)
    requires i < |counts|
    ensures Sum(counts[i := v]) == Sum(counts) - counts[i] + v
  {
    var last := |counts| - 1;
    if i < last {
      SumUpdate(counts[..last], i, v);
      assert counts[i := v][..last] == counts[..last][i := v];
    } else {
      assert counts[i := v][..last] == counts[..last];
    }
  }

  lemma {:induction false} SumOfZeros(counts: seq<nat>)
    requires forall i :: 0 <= i < |counts| ==> counts[i] == 0
    ensures Sum(counts) == 0
  {
    if counts != [] { SumOfZeros(counts[..|counts| - 1]); }
  }

  // ---- The shadow register, its writers and its readers ----

  /** A GET_MCH_SHADOW call; `since` are the bits that were set after it took its copy. */
  datatype Reader = Reader(copy: bv8, reported: bool, since: bv8)

  /**
   `ever`: bits set since the first open.  `told`: bits reported since then.  `owed`: bits whose
   latest interrupt no report tells of, because the report's copy was taken before it.
   */
  datatype Watch = Watch(register: bv8, readers: map<nat, Reader>, ever: bv8, told: bv8, owed: bv8)

  datatype Event =
    | FirstOpen
    | IsrSets(bits: bv8)
    | TakeCopy(who: nat)
    | CopyToUser(who: nat, fails: bool)
    | Reset(who: nat)

  predicate Enabled(w: Watch, e: Event)
  {
    match e
    case FirstOpen => w.readers == map[]
    case IsrSets(_) => true
    case TakeCopy(who) => who !in w.readers
    case CopyToUser(who, _) => who in w.readers && !w.readers[who].reported
    case Reset(who) => who in w.readers && w.readers[who].reported
  }

  function Or(a: bv8, b: bv8): bv8 { a | b }

  function And(a: bv8, b: bv8): bv8 { a & b }

  function Minus(a: bv8, b: bv8): bv8 { a & !b }

  predicate Within(a: bv8, b: bv8) { a & !b == 0 }

  function Next(w: Watch, e: Event): Watch
    requires Enabled(w, e)
  {
    match e
    case FirstOpen => Watch(0, map[], 0, 0, 0)
    case IsrSets(bits) =>
      Watch(Or(w.register, bits),
            map who | who in w.readers :: w.readers[who].(since := Or(w.readers[who].since, bits)),
            Or(w.ever, bits), w.told, Or(w.owed, bits))
    case TakeCopy(who) => w.(readers := w.readers[who := Reader(w.register, false, 0)])
    case CopyToUser(who, fails) =>
      var r := w.readers[who];
      if fails then w.(readers := w.readers - {who})
      else w.(readers := w.readers[who := r.(reported := true)], told := Or(w.told, r.copy),
              owed := Minus(w.owed, Minus(r.copy, r.since)))
    case Reset(who) => w.(register := Minus(w.register, w.readers[who].copy), readers := w.readers - {who})
  }

  /** A report's bits have been reported; those owed again were set after its copy was taken. */
  ghost predicate ReaderKept(r: Reader, told: bv8, owed: bv8)
  {
    r.reported ==> Within(r.copy, told) && Within(And(owed, r.copy), r.since)
  }

  /** Every bit set is still there or has been reported; so is every bit of a report being reset. */
  ghost predicate Kept(w: Watch)
  {
    && Within(w.ever, Or(w.register, w.told))
    && Within(w.owed, w.ever)
    && forall who :: who in w.readers ==> ReaderKept(w.readers[who], w.told, w.owed)
  }

  /** No interrupt has gone unreported without being left in the register for the next report. */
  predicate NoneLost(w: Watch) { Within(w.owed, w.register) }

  lemma StepKeeps(w: Watch, e: Event)
    requires Kept(w) && Enabled(w, e)
    ensures Kept(Next(w, e))
  {
    hide Within, Or, And, Minus, ReaderKept;
    match e
    case FirstOpen =>
      SetBits(0, 0, 0, 0);
    case IsrSets(bits) =>
      SetBits(w.ever, w.register, w.told, bits);
      MoreOwed(w.owed, w.ever, bits);
      forall who | who in w.readers
        ensures ReaderKept(w.readers[who].(since := Or(w.readers[who].since, bits)), w.told, Or(w.owed, bits))
      {
        ReaderSeesBits(w.readers[who], w.told, w.owed, bits);
      }
    case TakeCopy(_) =>
      NewReader(w.register, w.told, w.owed);
    case CopyToUser(who, fails) =>
      var r := w.readers[who];
      if !fails {
        TellBits(w.ever, w.register, w.told, w.owed, r);
        ReaderTells(r, w.told, w.owed);
        forall other | other in w.readers
          ensures ReaderKept(w.readers[other], Or(w.told, r.copy), Minus(w.owed, Minus(r.copy, r.since)))
        {
          OtherTells(w.readers[other], w.told, w.owed, r.copy, Minus(r.copy, r.since));
        }
      }
    case Reset(who) =>
      DropBits(w.ever, w.register, w.told, w.owed, w.readers[who]);
  }

  lemma SetBits(ever: bv8, register: bv8, told: bv8, bits: bv8)
    requires Within(ever, Or(register, told))
    ensures Within(Or(ever, bits), Or(Or(register, bits), told))
    ensures Within(0, Or(0, 0)) && Within(0, 0)
  {}

  lemma MoreOwed(owed: bv8, ever: bv8, bits: bv8)
    requires Within(owed, ever)
    ensures Within(Or(owed, bits), Or(ever, bits))
  {}

  lemma FewerOwed(owed: bv8, ever: bv8, paid: bv8)
    requires Within(owed, ever)
    ensures Within(Minus(owed, paid), ever)
  {}

  lemma ReaderSeesBits(r: Reader, told: bv8, owed: bv8, bits: bv8)
    requires ReaderKept(r, told, owed)
    ensures ReaderKept(r.(since := Or(r.since, bits)), told, Or(owed, bits))
  {}

  lemma NewReader(register: bv8, told: bv8, owed: bv8)
    ensures ReaderKept(Reader(register, false, 0), told, owed)
  {}

  lemma TellBits(ever: bv8, register: bv8, told: bv8, owed: bv8, r: Reader)
    requires Within(ever, Or(register, told)) && Within(owed, ever)
    ensures Within(ever, Or(register, Or(told, r.copy))) && Within(Minus(owed, Minus(r.copy, r.since)), ever)
  {}

  lemma ReaderTells(r: Reader, told: bv8, owed: bv8)
    ensures ReaderKept(r.(reported := true), Or(told, r.copy), Minus(owed, Minus(r.copy, r.since)))
  {}

  lemma OtherTells(r: Reader, told: bv8, owed: bv8, copy: bv8, paid: bv8)
    requires ReaderKept(r, told, owed)
    ensures ReaderKept(r, Or(told, copy), Minus(owed, paid))
  {}

  lemma DropBits(ever: bv8, register: bv8, told: bv8, owed: bv8, r: Reader)
    requires Within(ever, Or(register, told)) && r.reported && ReaderKept(r, told, owed)
    ensures Within(ever, Or(Minus(register, r.copy), told))
  {}

  /**
   One step loses an interrupt exactly when it resets a bit that has become owed again, and that is
   only possible for a module that interrupted between this reader's copy and its reset.
   */
  lemma StepLosesExactlyWhen(w: Watch, e: Event)
    requires Kept(w) && NoneLost(w) && Enabled(w, e)
    ensures NoneLost(Next(w, e)) <==> (e.Reset? ==> And(w.owed, w.readers[e.who].copy) == 0)
    ensures e.Reset? && And(w.readers[e.who].copy, w.readers[e.who].since) == 0 ==> NoneLost(Next(w, e))
  {
    hide Within, Or, And, Minus, ReaderKept;
    match e
    case FirstOpen => SetBits(0, 0, 0, 0);
    case IsrSets(bits) => MoreOwed(w.owed, w.register, bits);
    case TakeCopy(_) =>
    case CopyToUser(who, fails) => FewerOwed(w.owed, w.register, Minus(w.readers[who].copy, w.readers[who].since));
    case Reset(who) => ResetLoses(w.owed, w.register, w.told, w.readers[who]);
  }

  lemma ResetLoses(owed: bv8, register: bv8, told: bv8, r: Reader)
    requires Within(owed, register) && r.reported && ReaderKept(r, told, owed)
    ensures Within(owed, Minus(register, r.copy)) <==> And(owed, r.copy) == 0
    ensures And(r.copy, r.since) == 0 ==> And(owed, r.copy) == 0
  {}

  /** A schedule of the interrupt routine and any number of readers; what is not due does nothing. */
  function Run(w: Watch, events: seq<Event>): Watch
    decreases |events|
  {
    if events == [] then w
    else Run(if Enabled(w, events[0]) then Next(w, events[0]) else w, events[1..])
  }

  /** No reader resets a bit that was set again since it took its copy. */
  predicate NoLateBits(w: Watch, events: seq<Event>)
    decreases |events|
  {
    events == [] ||
    var e := events[0];
    if Enabled(w, e) then
      && (e.Reset? ==> And(w.readers[e.who].copy, w.readers[e.who].since) == 0)
      && NoLateBits(Next(w, e), events[1..])
    else NoLateBits(w, events[1..])
  }

  /** Every bit the interrupt routine ever set is in the register or has been reported. */
  lemma {:induction false} BitsAreNeverForgotten(w: Watch, events: seq<Event>)
    requires Kept(w)
    ensures Kept(Run(w, events))
    ensures var end := Run(w, events); Within(end.ever, Or(end.register, end.told))
    decreases |events|
  {
    hide Next, Within, Enabled;
    if events != [] {
      if Enabled(w, events[0]) {
        StepKeeps(w, events[0]);
        BitsAreNeverForgotten(Next(w, events[0]), events[1..]);
      } else {
        BitsAreNeverForgotten(w, events[1..]);
      }
    }
  }

  /** No reset takes away a bit whose latest interrupt no report has told of. */
  predicate NoOwedReset(w: Watch, events: seq<Event>)
    decreases |events|
  {
    events == [] ||
    var e := events[0];
    if Enabled(w, e) then
      && (e.Reset? ==> And(w.owed, w.readers[e.who].copy) == 0)
      && NoOwedReset(Next(w, e), events[1..])
    else NoOwedReset(w, events[1..])
  }

  /** At no moment of a run has an interrupt been lost. */
  ghost predicate NeverLoses(w: Watch, events: seq<Event>)
  {
    forall k :: 0 <= k <= |events| ==> NoneLost(Run(w, events[..k]))
  }

  lemma NeverLosesSplits(w: Watch, events: seq<Event>)
    requires events != []
    ensures var next := if Enabled(w, events[0]) then Next(w, events[0]) else w;
      NeverLoses(w, events) <==> NoneLost(w) && NeverLoses(next, events[1..])
  {
    hide Enabled, Next, NoneLost;
    var next := if Enabled(w, events[0]) then Next(w, events[0]) else w;
    assert events[..0] == [];
    assert Run(w, events[..0]) == w;
    forall k | 0 < k <= |events| ensures Run(w, events[..k]) == Run(next, events[1..][..k - 1]) {
      assert events[..k][1..] == events[1..][..k - 1];
    }
    if NeverLoses(w, events) {
      forall k | 0 <= k <= |events[1..]| ensures NoneLost(Run(next, events[1..][..k])) {
        assert NoneLost(Run(w, events[..k + 1]));
      }
    }
  }

  /** Over a whole run, every interrupt is reported or waiting just if no reset takes an owed bit. */
  lemma {:induction false} InterruptsAreNeverLostExactlyWhen(w: Watch, events: seq<Event>)
    requires Kept(w) && NoneLost(w)
    ensures NeverLoses(w, events) <==> NoOwedReset(w, events)
    decreases |events|
  {
    hide Next, Within, NoneLost, Kept, NeverLoses, And, Run;
    if events == [] {
      OnlyTheStart(w, events);
    } else {
      var e := events[0];
      NeverLosesSplits(w, events);
      if Enabled(w, e) {
        StepKeeps(w, e);
        StepLosesExactlyWhen(w, e);
        if NoneLost(Next(w, e)) {
          InterruptsAreNeverLostExactlyWhen(Next(w, e), events[1..]);
        } else if NeverLoses(Next(w, e), events[1..]) {
          StartMayNotLose(Next(w, e), events[1..]);
        }
      } else {
        InterruptsAreNeverLostExactlyWhen(w, events[1..]);
      }
    }
  }

  lemma OnlyTheStart(w: Watch, events: seq<Event>)
    requires events == []
    ensures NeverLoses(w, events) <==> NoneLost(w)
  {
    hide NoneLost;
    assert events[..0] == events;
  }

  lemma StartMayNotLose(w: Watch, events: seq<Event>)
    requires NeverLoses(w, events)
    ensures NoneLost(w)
  {
    hide NoneLost;
    assert events[..0] == [];
    assert NoneLost(Run(w, events[..0]));
  }

  /** That is so in particular as long as no reset comes late. */
  lemma {:induction false} InterruptsAreNeverLostUnlessLate(w: Watch, events: seq<Event>)
    requires Kept(w) && NoneLost(w) && NoLateBits(w, events)
    ensures NoneLost(Run(w, events))
    decreases |events|
  {
    hide Next, Within, NoneLost, Kept;
    if events != [] {
      var e := events[0];
      if Enabled(w, e) {
        StepKeeps(w, e);
        StepLosesExactlyWhen(w, e);
        InterruptsAreNeverLostUnlessLate(Next(w, e), events[1..]);
      } else {
        InterruptsAreNeverLostUnlessLate(w, events[1..]);
      }
    }
  }

  /** A second interrupt of module 0 falls between the report of the first and the reset. */
  lemma SecondInterruptLost()
    ensures var w := Run(Watch(0, map[], 0, 0, 0),
                         [IsrSets(1), TakeCopy(0), CopyToUser(0, false), IsrSets(1), Reset(0)]);
            w.register == 0 && w.owed == 1 && !NoneLost(w)
  {
    var w0 := Watch(0, map[], 0, 0, 0);
    var w1 := Next(w0, IsrSets(1));
    var w2 := Next(w1, TakeCopy(0));
    var w3 := Next(w2, CopyToUser(0, false));
    var w4 := Next(w3, IsrSets(1));
    var w5 := Next(w4, Reset(0));
    assert Run(w4, [Reset(0)]) == Run(w5, []);
    assert Run(w3, [IsrSets(1), Reset(0)]) == Run(w4, [Reset(0)]);
    assert Run(w2, [CopyToUser(0, false), IsrSets(1), Reset(0)]) == Run(w3, [IsrSets(1), Reset(0)]);
  }

  // ---- The driver's code ----

  class ExcDevice {
    const boardType: BoardType
    const expanded: bool
    const supportsDma: bool
    const globalDmaInterrupts: bool
    const globalDmaRegisters: bool

    var refCount: nat
    var totalInterrupts: nat
    var dmaInterrupts: nat
    var falseInterrupts: nat
    var shadow: bv8
    const moduleCount: array<nat>
    const wakeup: array<bool>
    /** The DMA interrupts counted before the last first open, which does not reset that count. */
    ghost var dmaAtOpen: nat
    /** How often the counters have wrapped, all told. */
    ghost var laps: int
    ghost var watch: Watch

    ghost predicate Valid()
      reads this, moduleCount
    {
      Balanced() && watch.register == shadow && Kept(watch)
    }

    /** The counters balance. */
    ghost predicate Balanced()
      reads this, moduleCount
    {
      && moduleCount.Length == MAX_BANKS && wakeup.Length == MAX_BANKS
      && Sum(moduleCount[..]) + dmaInterrupts - dmaAtOpen - totalInterrupts == laps * WRAP
    }

    constructor (boardType: BoardType, expanded: bool, supportsDma: bool, globalInts: bool, globalRegs: bool)
      ensures Valid() && fresh(moduleCount) && fresh(wakeup) && refCount == 0
      ensures this.boardType == boardType && this.expanded == expanded && this.supportsDma == supportsDma
      ensures globalDmaInterrupts == globalInts && globalDmaRegisters == globalRegs
    {
      this.boardType, this.expanded, this.supportsDma := boardType, expanded, supportsDma;
      globalDmaInterrupts, globalDmaRegisters := globalInts, globalRegs;
      refCount, totalInterrupts, dmaInterrupts, falseInterrupts, shadow := 0, 0, 0, 0, 0;
      moduleCount := new nat[MAX_BANKS](_ => 0);
      wakeup := new bool[MAX_BANKS](_ => false);
      dmaAtOpen, laps, watch := 0, 0, Watch(0, map[], 0, 0, 0);
      new;
      SumOfZeros(moduleCount[..]);
      SetBits(0, 0, 0, 0);
    }

    /** The first open starts the counts, all but the DMA count, and empties the shadow register. */
    method Open()
      requires Valid() && (refCount == 0 ==> watch.readers == map[])
      modifies this, moduleCount
      ensures Valid() && refCount == old(refCount) + 1 && dmaInterrupts == old(dmaInterrupts)
      ensures old(refCount) == 0 ==> totalInterrupts == 0 && dmaAtOpen == dmaInterrupts
      ensures old(refCount) == 0 ==> forall m :: 0 <= m < MAX_BANKS ==> moduleCount[m] == 0
      ensures old(refCount) == 0 ==> watch == Next(old(watch), FirstOpen)
      ensures old(refCount) != 0 ==> totalInterrupts == old(totalInterrupts) && watch == old(watch)
      ensures old(refCount) != 0 ==> moduleCount[..] == old(moduleCount[..]) && dmaAtOpen == old(dmaAtOpen)
    {
      if refCount == 0 {
        StepKeeps(watch, FirstOpen);
        totalInterrupts, shadow := 0, 0;
        for i := 0 to MAX_BANKS
          modifies moduleCount
          invariant forall m :: 0 <= m < i ==> moduleCount[m] == 0
        {
          moduleCount[i] := 0;
        }
        SumOfZeros(moduleCount[..]);
        dmaAtOpen, laps, watch := dmaInterrupts, 0, Next(watch, FirstOpen);
      }
      refCount := refCount + 1;
    }

    method CountDma()
      requires Valid()
      modifies this`dmaInterrupts, this`totalInterrupts, this`laps
      ensures Valid() && dmaInterrupts == Inc(old(dmaInterrupts)) && totalInterrupts == Inc(old(totalInterrupts))
    {
      hide Sum, Kept, Inc, Lap;
      IncLap(dmaInterrupts);
      IncLap(totalInterrupts);
      laps := laps + Lap(totalInterrupts) - Lap(dmaInterrupts);
      dmaInterrupts, totalInterrupts := Inc(dmaInterrupts), Inc(totalInterrupts);
    }

    /** The interrupt register names module m, and the board has it. */
    predicate Interrupted(status: bv16, m: nat) { m < Modules(boardType, expanded) && BitOn(status, m) }

    /** One more, modulo 2^32, for each of the modules below `upTo` that are named. */
    predicate Counted(before: seq<nat>, after: seq<nat>, status: bv16, upTo: nat)
    {
      |after| == |before| && forall m :: 0 <= m < |before| ==>
        after[m] == if m < upTo && Interrupted(status, m) then (before[m] + 1) % 0x1_0000_0000 else before[m]
    }

    /** Just the waiters of those modules are woken. */
    predicate Woken(before: seq<bool>, after: seq<bool>, status: bv16, upTo: nat)
    {
      |after| == |before| && forall m :: 0 <= m < |before| ==>
        (after[m] <==> before[m] || (m < upTo && Interrupted(status, m)))
    }

    /** Just those of the first eight modules that are named come to be in the shadow register. */
    predicate Shadowed(before: bv8, after: bv8, status: bv16)
    {
      forall m :: 0 <= m < 8 ==> (ShadowOn(after, m) <==> ShadowOn(before, m) || Interrupted(status, m))
    }

    lemma NoneCounted(counts: seq<nat>, woken: seq<bool>, status: bv16)
      ensures Counted(counts, counts, status, 0) && Woken(woken, woken, status, 0)
    {
    }

    lemma OneCountMore(before: seq<nat>, counts: seq<nat>, wereWoken: seq<bool>, woken: seq<bool>, status: bv16,
                       mod: nat)
      requires |before| == |wereWoken| == MAX_BANKS && mod < MAX_INTERRUPT_BITS
      requires Counted(before, counts, status, mod) && Woken(wereWoken, woken, status, mod)
      ensures Signals(status, FullMask(boardType, expanded), ModuleBit(mod)) ==>
        && Counted(before, counts[mod := Inc(counts[mod])], status, mod + 1)
        && Woken(wereWoken, woken[mod := true], status, mod + 1)
      ensures !Signals(status, FullMask(boardType, expanded), ModuleBit(mod)) ==>
        Counted(before, counts, status, mod + 1) && Woken(wereWoken, woken, status, mod + 1)
    {
      hide Signals, ModuleBit, FullMask, BitOn;
      SignalledModule(status, boardType, expanded, mod);
    }

    /** No board has more modules than there are interrupt bits. */
    lemma AllCounted(before: seq<nat>, counts: seq<nat>, wereWoken: seq<bool>, woken: seq<bool>, status: bv16)
      requires Counted(before, counts, status, MAX_INTERRUPT_BITS)
      requires Woken(wereWoken, woken, status, MAX_INTERRUPT_BITS)
      ensures Counted(before, counts, status, MAX_BANKS) && Woken(wereWoken, woken, status, MAX_BANKS)
    {
      hide BitOn;
    }

    function ShadowBits(status: bv16): bv8 { ShadowOf(status, boardType, expanded) }

    lemma AllShadowBits(status: bv16)
      ensures ShadowBits(status) == LowByte(Signalled(status, FullMask(boardType, expanded),
                                                      BitsBelow(MAX_INTERRUPT_BITS)))
    {
      hide Signalled, LowByte, FullMask, BitsBelow;
      AllBits(status, boardType, expanded);
    }

    method CountModule(mod: nat)
      requires Balanced() && mod < MAX_INTERRUPT_BITS
      modifies this`totalInterrupts, this`shadow, this`laps, moduleCount, wakeup
      ensures Balanced() && shadow == Or(old(shadow), LowByte(ModuleBit(mod)))
      ensures moduleCount[..] == old(moduleCount[..])[mod := Inc(old(moduleCount[mod]))]
      ensures wakeup[..] == old(wakeup[..])[mod := true]
    {
      hide Sum, Inc, Lap, ModuleBit, LowByte;
      SumUpdate(moduleCount[..], mod, Inc(moduleCount[mod]));
      IncLap(moduleCount[mod]);
      IncLap(totalInterrupts);
      laps := laps + Lap(totalInterrupts) - Lap(moduleCount[mod]);
      shadow := shadow | LowByte(ModuleBit(mod));
      moduleCount[mod] := Inc(moduleCount[mod]);
      totalInterrupts := Inc(totalInterrupts);
      wakeup[mod] := true;
    }

    /** The module half: every module named is counted once, shadowed and woken, and no other is. */
    method CountModules(status: bv16)
      requires Balanced()
      modifies this`totalInterrupts, this`shadow, this`laps, moduleCount, wakeup
      ensures Balanced() && shadow == Or(old(shadow), ShadowBits(status))
      ensures Counted(old(moduleCount[..]), moduleCount[..], status, MAX_BANKS)
      ensures Woken(old(wakeup[..]), wakeup[..], status, MAX_BANKS)
      ensures Shadowed(old(shadow), shadow, status)
    {
      var fullMask := FullMask(boardType, expanded);
      hide Sum, Inc, Signals, Signalled, ModuleBit, BitsBelow, LowByte, Or, FullMask, ShadowBits, Interrupted, Shadowed,
          Counted, Woken;
      NoBits(status, boardType, expanded, shadow);
      AllShadowBits(status);
      NoneCounted(moduleCount[..], wakeup[..], status);
      for mod := 0 to MAX_INTERRUPT_BITS
        invariant Balanced() && shadow == Or(old(shadow), LowByte(Signalled(status, fullMask, BitsBelow(mod))))
        invariant Counted(old(moduleCount[..]), moduleCount[..], status, mod)
        invariant Woken(old(wakeup[..]), wakeup[..], status, mod)
      {
        OneBitMore(status, fullMask, mod);
        OneCountMore(old(moduleCount[..]), moduleCount[..], old(wakeup[..]), wakeup[..], status, mod);
        if Signals(status, fullMask, ModuleBit(mod)) {
          OrAssociates(old(shadow), LowByte(Signalled(status, fullMask, BitsBelow(mod))), LowByte(ModuleBit(mod)));
          CountModule(mod);
        }
      }
      ModulesShadowed(old(shadow), status);
      AllCounted(old(moduleCount[..]), moduleCount[..], old(wakeup[..]), wakeup[..], status);
    }

    lemma ModulesShadowed(before: bv8, status: bv16)
      ensures Shadowed(before, Or(before, ShadowBits(status)), status)
    {
      hide ShadowOn, LowByte, Or, FullMask, BitOn, ShadowBits, Interrupted;
      forall m | 0 <= m < 8
        ensures ShadowOn(Or(before, ShadowBits(status)), m) <==> ShadowOn(before, m) || Interrupted(status, m)
      {
        ModuleShadowed(before, status, m);
      }
    }

    lemma ModuleShadowed(before: bv8, status: bv16, m: nat)
      requires m < 8
      ensures ShadowOn(Or(before, ShadowBits(status)), m) <==> ShadowOn(before, m) || Interrupted(status, m)
    {
      hide ShadowOn, ShadowOf, Or, FullMask, BitOn;
      ShadowedModule(before, status, boardType, expanded, m);
    }

    /**
     The interrupt routine; the arguments are what it reads from the board.  One DMA interrupt is that of the
     DMA register, which only some boards have, and one that of the global register.
     */
    method Isr(dmaStatus: bv32, status: bv16) returns (handled: bool)
      requires Valid()
      modifies this`totalInterrupts, this`dmaInterrupts, this`falseInterrupts, this`shadow, this`laps, this`watch,
               moduleCount, wakeup
      ensures Valid()
      // every module named, and no other, is counted once, woken and shadowed
      ensures Counted(old(moduleCount[..]), moduleCount[..], status, MAX_BANKS)
      ensures Woken(old(wakeup[..]), wakeup[..], status, MAX_BANKS)
      ensures Shadowed(old(shadow), shadow, status)
      ensures (exists m :: 0 <= m < MAX_BANKS && Interrupted(status, m)) ==>
        watch == Next(old(watch), IsrSets(ShadowBits(status)))
      // up to two DMA interrupts are counted
      ensures var own := supportsDma && dmaStatus & 0x3 != 0 &&
          if globalDmaRegisters then boardType == Board4000 else !globalDmaInterrupts;
        var shared := globalDmaInterrupts && status & 0x300 != 0;
        && dmaInterrupts == IncTimes((if own then 1 else 0) + (if shared then 1 else 0), old(dmaInterrupts))
        && (handled <==> own || shared || exists m :: 0 <= m < MAX_BANKS && Interrupted(status, m))
      // one that names neither a module nor, in the global register, the DMA is spurious
      ensures falseInterrupts == old(falseInterrupts) +
        if (globalDmaInterrupts && status & 0x300 != 0) || exists m :: 0 <= m < MAX_BANKS && Interrupted(status, m)
        then 0 else 1
      ensures falseInterrupts != old(falseInterrupts) ==> watch == old(watch)
    {
      hide Sum, Kept, Inc, Signals, ModuleBit, LowByte, Next, Or, ShadowBits, Interrupted, Counted, Woken, Shadowed;
      handled := false;
      ghost var n := dmaInterrupts;
      assert IncTimes(0, n) == n && IncTimes(1, n) == Inc(n) && IncTimes(2, n) == Inc(Inc(n));
      NoneInterrupted(moduleCount[..], wakeup[..], shadow, status);
      if supportsDma && !globalDmaInterrupts && !globalDmaRegisters {
        if dmaStatus & DMA_INT_MASK != 0 {
          CountDma();
          handled := true;
        }
      } else if boardType == Board4000 && supportsDma && globalDmaRegisters {
        if dmaStatus & DMA_INT_MASK != 0 {
          CountDma();
          handled := true;
        }
      }
      if globalDmaInterrupts && status & GLOBAL_DMA_INT_MASK != 0 {
        CountDma();
        handled := true;
      } else if status & FullMask(boardType, expanded) == 0 {
        falseInterrupts := falseInterrupts + 1;
        return;
      }
      StepKeeps(watch, IsrSets(ShadowBits(status)));
      NextRegister(watch, ShadowBits(status));
      CountModules(status);
      watch := Next(watch, IsrSets(ShadowBits(status)));
      handled := true;
    }

    /** A word that names no module leaves everything as it is. */
    lemma NoneInterrupted(counts: seq<nat>, woken: seq<bool>, shadow: bv8, status: bv16)
      requires |counts| == |woken| == MAX_BANKS
      ensures status & FullMask(boardType, expanded) == 0 <==>
        !exists m :: 0 <= m < MAX_BANKS && Interrupted(status, m)
      ensures status & FullMask(boardType, expanded) == 0 ==>
        && Counted(counts, counts, status, MAX_BANKS) && Woken(woken, woken, status, MAX_BANKS)
        && Shadowed(shadow, shadow, status)
    {
      hide BitOn, FullMask, ShadowOn;
      NoneSignalled(status, boardType, expanded);
      if m :| 0 <= m < Modules(boardType, expanded) && BitOn(status, m) {
        assert Interrupted(status, m);
      }
    }

    /** Since the last first open: all the interrupts are the modules' and the DMA's, modulo 2^32. */
    lemma NothingUncounted()
      requires Valid()
      ensures totalInterrupts % WRAP == (Sum(moduleCount[..]) + dmaInterrupts - dmaAtOpen) % WRAP
    {
      Congruent(Sum(moduleCount[..]) + dmaInterrupts - dmaAtOpen, totalInterrupts, laps);
    }

    // The three statements of GET_MCH_SHADOW; anything may run between them.

    method TakeShadowCopy(ghost who: nat) returns (copy: bv8)
      requires Valid() && who !in watch.readers
      modifies this`watch
      ensures Valid() && watch == Next(old(watch), TakeCopy(who)) && copy == shadow == watch.readers[who].copy
    {
      StepKeeps(watch, TakeCopy(who));
      copy := shadow;
      watch := Next(watch, TakeCopy(who));
    }

    /** `fails`: what copy_to_user answers; the call then ends with an error. */
    method ReportShadowCopy(ghost who: nat, copy: bv8, fails: bool) returns (goesOn: bool)
      requires Valid() && who in watch.readers && !watch.readers[who].reported && copy == watch.readers[who].copy
      modifies this`watch
      ensures Valid() && watch == Next(old(watch), CopyToUser(who, fails)) && goesOn == !fails
    {
      StepKeeps(watch, CopyToUser(who, fails));
      goesOn := !fails;
      watch := Next(watch, CopyToUser(who, fails));
    }

    method ResetShadow(ghost who: nat, copy: bv8)
      requires Valid() && who in watch.readers && watch.readers[who].reported && copy == watch.readers[who].copy
      modifies this`watch, this`shadow
      ensures Valid() && watch == Next(old(watch), Reset(who)) && shadow == old(shadow) & !copy
    {
      StepKeeps(watch, Reset(who));
      shadow := shadow & !copy;
      watch := Next(watch, Reset(who));
    }
  }

  lemma NoBits(status: bv16, board: BoardType, expanded: bool, shadow: bv8)
    ensures shadow == Or(shadow, LowByte(Signalled(status, FullMask(board, expanded), BitsBelow(0))))
  {
  }

  lemma NextRegister(w: Watch, bits: bv8)
    ensures Next(w, IsrSets(bits)).register == Or(w.register, bits)
  {
  }

  lemma OrAssociates(a: bv8, b: bv8, c: bv8)
    ensures Or(Or(a, b), c) == Or(a, Or(b, c))
  {
  }

  lemma Congruent(a: int, b: int, k: int)
    requires a - b == k * WRAP
    ensures a % WRAP == b % WRAP
  {
  }
}
