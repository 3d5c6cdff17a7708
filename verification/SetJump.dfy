/**
 Turning a message into a jump while the board may be running: halt the message, check that it is
 not being sent, patch it, let it go on.  Board and host are steps that may fall in any order.
 */
module SetJump {
  import opened Common
  import opened MessageLayout
  import opened StackScan

  const FULLFRAME: bv16 := 0

  /** The three words of a message that matter here. */
  datatype Message = Message(control: bv16, word1: bv16, word2: bv16)

  predicate IsHalted(control: bv16) { control & HALT_CONT != 0 }

  /** The control word as Set_Jump first writes it. */
  function HaltedJump(control: bv16): bv16 { (control & !COMMAND_CODE) | JUMP | HALT_CONT }

  /** The control word it leaves. */
  function FinalJump(control: bv16): bv16
  {
    if IsHalted(control) then HaltedJump(control) else Continued(HaltedJump(control))
  }

  /** A jump whose other fields, the HALT bit too, are as they were. */
  lemma FinalJumpFields(control: bv16)
    ensures Unpack(FinalJump(control)) == Unpack(control).(command := JUMP)
    ensures IsHalted(FinalJump(control)) <==> IsHalted(control)
    ensures IsHalted(HaltedJump(control))
  {
  }

  predicate IsJump(control: bv16) { control & COMMAND_CODE == JUMP }

  /** Where the host is in Set_Jump. */
  datatype Pc = Begin | HasRead | HasHalted | Cleared | PatchedOne | PatchedBoth | Succeeded | Refusing | Refused

  /**
   `serving`: what the board fetched and is sending, from stack entry `entry`.  `looked`: the entry whose
   status the host looks at.  `spurious`: the status it reads says NO_ALTER though the board is not
   sending from there.  `fetched`: all the board ever fetched.  `before` is the message as found, with
   the second word as the board last wrote it while sending; `words`: all that word has been.
   */
  datatype State = State(m: Message, serving: Option<Message>, entry: nat, looked: Option<nat>, spurious: bool,
                         fetched: seq<Message>, pc: Pc, before: Message, words: set<bv16>, target: bv16, count: bv16)

  datatype Event =
    | Host                      // the host's next statement
    | Fetch(entry: nat)         // the board takes the message from one of its entries, and marks that
    | SendData(word: bv16)      // while sending, the board writes status or data into the message
    | Finish                    // the board stores the status of the sent message

  predicate Enabled(s: State, e: Event)
  {
    match e
    case Host => s.pc != Succeeded && s.pc != Refused
    case Fetch(_) => !IsHalted(s.m.control) && s.serving == None
    case SendData(_) => s.serving.Some? && !IsJump(s.serving.value.control)
    case Finish => s.serving.Some?
  }

  /** The board is sending from the entry looked at. */
  predicate Seen(s: State) { s.looked == Some(s.entry) }

  /** The status word looked at reads NO_ALTER. */
  predicate NoAlter(s: State) { s.spurious || (s.serving.Some? && Seen(s)) }

  function HostNext(s: State): State
    requires Enabled(s, Host)
  {
    match s.pc
    case Begin => s.(pc := HasRead)
    case HasRead => s.(m := s.m.(control := HaltedJump(s.before.control)), pc := HasHalted)
    case HasHalted => s.(pc := if NoAlter(s) then Refusing else Cleared)
    case Refusing => s.(m := s.m.(control := s.before.control), pc := Refused)
    case Cleared => s.(m := s.m.(word1 := s.target), pc := PatchedOne)
    case PatchedOne => s.(m := s.m.(word2 := s.count), pc := PatchedBoth)
    case PatchedBoth => s.(m := s.m.(control := FinalJump(s.before.control)), pc := Succeeded)
  }

  function Next(s: State, e: Event): State
    requires Enabled(s, e)
  {
    match e
    case Host => HostNext(s)
    case Fetch(entry) => s.(serving := Some(s.m), entry := entry, fetched := s.fetched + [s.m])
    case SendData(word) =>
      if s.pc == Succeeded then s.(m := s.m.(word2 := word))
      else s.(m := s.m.(word2 := word), before := s.before.(word2 := word), words := s.words + {word})
    case Finish => s.(serving := None)
  }

  /** What the board is doing, and what the host will find, when Set_Jump is called. */
  datatype Start = Start(serving: Option<Message>, entry: nat, looked: Option<nat>, spurious: bool)

  function Init(m: Message, at: Start, target: bv16, count: bv16): State
  {
    State(m, at.serving, at.entry, at.looked, at.spurious, [], Begin, m, {m.word2}, target, count)
  }

  function Jumped(s: State): Message { Message(FinalJump(s.before.control), s.target, s.count) }

  predicate SameCommand(m: Message, n: Message) { m.control == n.control && m.word1 == n.word1 }

  /** What is in memory at each point. */
  predicate Memory(s: State)
  {
    match s.pc
    case Begin => s.m == s.before
    case HasRead => s.m == s.before
    case HasHalted => s.m == s.before.(control := HaltedJump(s.before.control))
    case Refusing => s.m == s.before.(control := HaltedJump(s.before.control))
    case Cleared => s.m == s.before.(control := HaltedJump(s.before.control))
    case PatchedOne => s.m == s.before.(control := HaltedJump(s.before.control), word1 := s.target)
    case PatchedBoth => s.m == Jumped(s).(control := HaltedJump(s.before.control))
    case Succeeded => s.m == Jumped(s)
    case Refused => s.m == s.before
  }

  /** A fetched message is the old one, its second word one that has been there, or the finished jump. */
  predicate Whole(s: State, f: Message)
  {
    (SameCommand(s.before, f) && f.word2 in s.words) || (s.pc == Succeeded && f == Jumped(s))
  }

  /** What the board is sending it fetched from the entry looked at, unless it is a jump and writes nothing. */
  predicate Harmless(s: State)
  {
    s.serving.Some? ==>
      && (Seen(s) || IsJump(s.before.control))
      && (if s.pc in {Cleared, PatchedOne, PatchedBoth, Succeeded} then IsJump(s.serving.value.control)
          else s.serving.value.control == s.before.control)
  }

  ghost predicate Inv(s: State)
  {
    && Memory(s)
    && Harmless(s)
    && s.before.word2 in s.words
    && forall f :: f in s.fetched ==> Whole(s, f)
  }

  /** A fetch from an entry whose status is not looked at is harmless for a jump only. */
  predicate Watched(s: State, e: Event) { e.Fetch? ==> s.looked == Some(e.entry) || IsJump(s.before.control) }

  lemma HostKeepsInv(s: State)
    requires Inv(s) && Enabled(s, Host)
    ensures Inv(HostNext(s))
  {
    HostKeepsMemory(s);
    HostKeepsHarmless(s);
    forall f | f in s.fetched ensures Whole(HostNext(s), f) { HostKeepsWhole(s, f); }
    HostFetchesNothing(s);
    hide Harmless, Whole, Memory, HostNext, NoAlter;
  }

  lemma HostFetchesNothing(s: State)
    requires Enabled(s, Host)
    ensures var t := HostNext(s); t.fetched == s.fetched && t.before == s.before && t.words == s.words
  {
    hide HaltedJump, FinalJump, NoAlter, IsHalted, IsJump;
    match s.pc
    case Begin => case HasRead => case HasHalted => case Refusing => case Refused =>
    case Cleared => case PatchedOne => case PatchedBoth => case Succeeded =>
  }

  lemma HostKeepsWhole(s: State, f: Message)
    requires Whole(s, f) && Enabled(s, Host)
    ensures Whole(HostNext(s), f)
  {
    HostFetchesNothing(s);
    hide HostNext;
  }

  lemma HostKeepsHarmless(s: State)
    requires Harmless(s) && Enabled(s, Host)
    ensures Harmless(HostNext(s))
  {
    hide HaltedJump, FinalJump, IsHalted, IsJump;
  }

  lemma HostKeepsMemory(s: State)
    requires Memory(s) && Enabled(s, Host)
    ensures Memory(HostNext(s)) && HostNext(s).before == s.before
    ensures s.pc == PatchedBoth ==> HostNext(s).m == Jumped(s)
  {
    hide HaltedJump, FinalJump, IsHalted, IsJump;
  }

  lemma InvHasMemory(s: State)
    requires Inv(s)
    ensures Memory(s)
  {
  }

  lemma BoardKeepsInv(s: State, e: Event)
    requires Inv(s) && Enabled(s, e) && !e.Host? && Watched(s, e)
    ensures Inv(Next(s, e)) && Next(s, e).pc == s.pc
  {
    FinalJumpFields(s.before.control);
    FinalIsJump(s.before.control);
    hide HaltedJump, FinalJump, IsHalted, IsJump;
    match e
    case Fetch(entry) => FetchKeepsInv(s, entry);
    case SendData(word) => DataKeepsInv(s, word);
    case Finish =>
  }

  /** What the board gets to fetch. */
  lemma FetchedIsWhole(s: State)
    requires Inv(s) && Enabled(s, Fetch(s.entry))
    ensures s.m == s.before || (s.pc == Succeeded && s.m == Jumped(s))
  {
    FinalJumpFields(s.before.control);
    hide HaltedJump, FinalJump, IsHalted, IsJump;
  }

  lemma FetchKeepsInv(s: State, entry: nat)
    requires Inv(s) && Enabled(s, Fetch(entry)) && Watched(s, Fetch(entry))
    ensures Inv(Next(s, Fetch(entry)))
  {
    FetchedIsWhole(s);
    FinalIsJump(s.before.control);
    FinalJumpFields(s.before.control);
    hide HaltedJump, FinalJump, IsHalted, IsJump;
  }

  /** Data are written only while the message is what it was. */
  lemma DataKeepsInv(s: State, word: bv16)
    requires Inv(s) && Enabled(s, SendData(word))
    ensures Inv(Next(s, SendData(word)))
  {
    hide HaltedJump, FinalJump, IsHalted, IsJump;
  }

  lemma StepKeepsInv(s: State, e: Event)
    requires Inv(s) && Enabled(s, e) && Watched(s, e)
    ensures Inv(Next(s, e)) && SameCommand(s.before, Next(s, e).before)
    ensures s.words <= Next(s, e).words <= s.words + (if e.SendData? then {e.word} else {})
    ensures Next(s, e).target == s.target && Next(s, e).count == s.count && Next(s, e).looked == s.looked
  {
    hide Inv, HaltedJump, FinalJump, IsHalted, IsJump;
    if e.Host? { HostKeepsInv(s); } else { BoardKeepsInv(s, e); }
  }

  lemma FinalIsJump(control: bv16)
    ensures IsJump(FinalJump(control))
  {
  }

  /** A schedule; what is not due does nothing. */
  function Run(s: State, events: seq<Event>): State
    decreases |events|
  {
    if events == [] then s
    else Run(if Enabled(s, events[0]) then Next(s, events[0]) else s, events[1..])
  }

  predicate AllWatched(s: State, events: seq<Event>) { forall e :: e in events ==> Watched(s, e) }

  lemma {:induction false} RunKeepsInv(s: State, events: seq<Event>)
    requires Inv(s) && AllWatched(s, events)
    ensures var r := Run(s, events);
      && Inv(r) && SameCommand(s.before, r.before) && r.target == s.target && r.count == s.count && r.looked == s.looked
      && forall w :: w in r.words ==> w in s.words || SendData(w) in events
    decreases |events|
  {
    hide Inv, Enabled, Next;
    if events != [] {
      if Enabled(s, events[0]) {
        StepKeepsInv(s, events[0]);
        assert AllWatched(Next(s, events[0]), events[1..]) by {
          assert forall e :: e in events[1..] ==> Watched(s, e);
        }
        RunKeepsInv(Next(s, events[0]), events[1..]);
      } else {
        RunKeepsInv(s, events[1..]);
      }
    }
  }

  /** The old message; its second word is the one it had or one the board was given to write. */
  predicate IsOld(m: Message, events: seq<Event>, f: Message)
  {
    SameCommand(m, f) && (f.word2 == m.word2 || SendData(f.word2) in events)
  }

  /**
   What Set_Jump is for: every fetch takes the old message or the finished jump; a refusal leaves the
   old message; success leaves the jump with every other field of the control word, HALT included.
   */
  ghost predicate OldOrJump(m: Message, target: bv16, count: bv16, events: seq<Event>, r: State)
  {
    var jump := Message(FinalJump(m.control), target, count);
    && (forall f :: f in r.fetched ==> IsOld(m, events, f) || (r.pc == Succeeded && f == jump))
    && (r.pc == Refused ==> IsOld(m, events, r.m))
    && (r.pc == Succeeded ==>
          && r.m == jump
          && Unpack(r.m.control) == Unpack(m.control).(command := JUMP)
          && (IsHalted(r.m.control) <==> IsHalted(m.control)))
  }

  /**
   What can happen to a message with this address: the board fetches it from its entries on the stack, and
   the host looks at the entry that its scan finds.
   */
  ghost predicate Possible(m: Message, pointers: seq<nat>, curstack: Option<nat>, address: nat, at: Start,
                           events: seq<Event>)
    requires OnStack(pointers, curstack)
  {
    && at.looked == Looked(pointers, curstack, address)
    && (at.serving.Some? ==> at.serving.value.control == m.control && Listed(pointers, address, at.entry))
    && forall e :: e in events && e.Fetch? ==> Listed(pointers, address, e.entry)
  }

  /**
   With one entry, at or above the started frame, or for a message that is a jump already, every interleaving
   goes well.
   */
  lemma {:induction false} BoardSeesOldOrJump(m: Message, pointers: seq<nat>, curstack: Option<nat>, address: nat,
                                              at: Start, target: bv16, count: bv16, events: seq<Event>)
    requires OnStack(pointers, curstack) && (InSight(pointers, curstack, address) || IsJump(m.control))
    requires Possible(m, pointers, curstack, address, at, events)
    ensures OldOrJump(m, target, count, events, Run(Init(m, at, target, count), events))
  {
    hide Run, FinalJump, Unpack, IsHalted, IsJump, InSight, Looked;
    InSightIsLooked(pointers, curstack, address);
    RunKeepsInv(Init(m, at, target, count), events);
    FinalJumpFields(m.control);
  }

  /** All of the host's steps, while the board sends the message from an entry that is not looked at. */
  lemma PatchedUnseen(m: Message, at: Start, target: bv16, count: bv16, rest: seq<Event>)
    requires at.serving == Some(m) && at.looked != Some(at.entry) && !at.spurious
    ensures Run(Init(m, at, target, count), [Host, Host, Host] + [Host, Host, Host] + rest) ==
            Run(Init(m, at, target, count).(m := Message(FinalJump(m.control), target, count), pc := Succeeded), rest)
  {
    hide Run, HaltedJump, FinalJump, HostNext;
    HaltedUnseen(m, at, target, count, [Host, Host, Host] + rest);
    PatchedAfterCheck(Init(m, at, target, count).(m := m.(control := HaltedJump(m.control)), pc := Cleared), rest);
    assert [Host, Host, Host] + [Host, Host, Host] + rest == [Host, Host, Host] + ([Host, Host, Host] + rest);
  }

  lemma HaltedUnseen(m: Message, at: Start, target: bv16, count: bv16, rest: seq<Event>)
    requires at.serving == Some(m) && at.looked != Some(at.entry) && !at.spurious
    ensures Run(Init(m, at, target, count), [Host, Host, Host] + rest) ==
            Run(Init(m, at, target, count).(m := m.(control := HaltedJump(m.control)), pc := Cleared), rest)
  {
    hide Run, HaltedJump, FinalJump;
    var s0 := Init(m, at, target, count);
    var s1 := s0.(pc := HasRead);
    var s2 := s1.(m := m.(control := HaltedJump(m.control)), pc := HasHalted);
    ThreeSteps(s0, s1, s2, s2.(pc := Cleared), rest);
  }

  lemma PatchedAfterCheck(s: State, rest: seq<Event>)
    requires s.pc == Cleared
    ensures Run(s, [Host, Host, Host] + rest) ==
            Run(s.(m := Message(FinalJump(s.before.control), s.target, s.count), pc := Succeeded), rest)
  {
    hide Run, HaltedJump, FinalJump;
    var s1 := s.(m := s.m.(word1 := s.target), pc := PatchedOne);
    var s2 := s1.(m := s1.m.(word2 := s.count), pc := PatchedBoth);
    ThreeSteps(s, s1, s2, HostNext(s2), rest);
  }

  lemma ThreeSteps(s0: State, s1: State, s2: State, s3: State, rest: seq<Event>)
    requires Enabled(s0, Host) && Enabled(s1, Host) && Enabled(s2, Host)
    requires HostNext(s0) == s1 && HostNext(s1) == s2 && HostNext(s2) == s3
    ensures Run(s0, [Host, Host, Host] + rest) == Run(s3, rest)
  {
    hide Run, HostNext;
    RunStep(s2, Host, rest);
    RunStep(s1, Host, [Host] + rest);
    RunStep(s0, Host, [Host, Host] + rest);
    assert [Host] + ([Host] + rest) == [Host, Host] + rest;
    assert [Host] + ([Host, Host] + rest) == [Host, Host, Host] + rest;
  }

  /**
   The message may be being sent from an entry that is not looked at: a second one, or one below the
   started frame, which a jump or an asynchronous frame has led to.  The check then passes, the board's
   last data word falls into the patched message, and the next fetch sees a jump with a count that
   nobody asked for.
   */
  lemma UnseenEntryBreaksJump(m: Message, at: Start, target: bv16, count: bv16, word: bv16)
    requires !IsJump(m.control) && at.serving == Some(m) && at.looked != Some(at.entry) && !at.spurious
    ensures var jump := Message(FinalJump(m.control), target, word);
      var r := Run(Init(m, at, target, count),
                   [Host, Host, Host] + [Host, Host, Host] + [SendData(word), Finish, Fetch(at.entry)]);
      r.pc == Succeeded && r.m == jump && r.fetched == if IsHalted(m.control) then [] else [jump]
  {
    PatchedUnseen(m, at, target, count, [SendData(word), Finish, Fetch(at.entry)]);
    FinalJumpFields(m.control);
    hide HaltedJump, FinalJump, IsHalted, IsJump;
    var s6 := Init(m, at, target, count).(m := Message(FinalJump(m.control), target, count), pc := Succeeded);
    RunStep(s6, SendData(word), [Finish, Fetch(at.entry)]);
    var s7 := Next(s6, SendData(word));
    RunStep(s7, Finish, [Fetch(at.entry)]);
    assert [SendData(word)] + [Finish, Fetch(at.entry)] == [SendData(word), Finish, Fetch(at.entry)];
    assert [Finish] + [Fetch(at.entry)] == [Finish, Fetch(at.entry)];
  }

  /**
   Set_Jump does what it is for, whatever the interleaving, just if the message is a jump already, or has
   at most one entry on the stack and that does not lie below the started frame.
   */
  lemma JumpIsSafeWhen(m: Message, pointers: seq<nat>, curstack: Option<nat>, address: nat, target: bv16, count: bv16)
    requires OnStack(pointers, curstack)
    ensures (forall at, events :: Possible(m, pointers, curstack, address, at, events) ==>
               OldOrJump(m, target, count, events, Run(Init(m, at, target, count), events)))
            <==> IsJump(m.control) || InSight(pointers, curstack, address)
  {
    hide Run, OldOrJump, Init, IsJump, InSight, Looked, Possible;
    if IsJump(m.control) || InSight(pointers, curstack, address) {
      forall at, events | Possible(m, pointers, curstack, address, at, events)
        ensures OldOrJump(m, target, count, events, Run(Init(m, at, target, count), events))
      {
        BoardSeesOldOrJump(m, pointers, curstack, address, at, target, count, events);
      }
    } else {
      UnseenEntryIsPossible(m, pointers, curstack, address, target, count);
    }
  }

  lemma UnseenEntryIsPossible(m: Message, pointers: seq<nat>, curstack: Option<nat>, address: nat, target: bv16,
                              count: bv16)
    requires OnStack(pointers, curstack) && !IsJump(m.control) && !InSight(pointers, curstack, address)
    ensures exists at, events :: Possible(m, pointers, curstack, address, at, events) &&
              !OldOrJump(m, target, count, events, Run(Init(m, at, target, count), events))
  {
    hide Run, FinalJump, Unpack, IsJump, IsHalted, InSight, Looked;
    InSightIsLooked(pointers, curstack, address);
    var e :| 0 <= e < |pointers| && Listed(pointers, address, e) && Looked(pointers, curstack, address) != Some(e);
    var at := Start(Some(m), e, Looked(pointers, curstack, address), false);
    var events := [Host, Host, Host] + [Host, Host, Host] + [SendData(!count), Finish, Fetch(e)];
    UnseenEntryBreaksJump(m, at, target, count, !count);
    assert count != !count;
    assert Possible(m, pointers, curstack, address, at, events);
  }

  /**
   The message is in frame 0 only, frame 1 is started, and frame 0 is sent as the asynchronous frame: its one
   entry is not looked at.
   */
  lemma EntryBelowStartedFrame(m: Message, target: bv16, count: bv16)
    requires !IsJump(m.control)
    ensures var pointers, curstack := [0x4000, 0x4008], Some(1);
      && Looked(pointers, curstack, 0x4000) == None && Listed(pointers, 0x4000, 0) && !Listed(pointers, 0x4000, 1)
      && exists at, events :: Possible(m, pointers, curstack, 0x4000, at, events) &&
           !OldOrJump(m, target, count, events, Run(Init(m, at, target, count), events))
  {
    hide Run, OldOrJump, Init, IsJump, Possible;
    var pointers: seq<nat> := [0x4000, 0x4008];
    assert Listed(pointers, 0x4000, 0) && pointers[1] != 0x4000;
    assert !InSight(pointers, Some(1), 0x4000);
    UnseenEntryIsPossible(m, pointers, Some(1), 0x4000, target, count);
  }

  lemma RunStep(s: State, e: Event, rest: seq<Event>)
    requires Enabled(s, e)
    ensures Run(s, [e] + rest) == Run(Next(s, e), rest)
  {
    assert ([e] + rest)[1..] == rest;
  }

  // ---- The library's code, statement by statement ----

  datatype Status = Done | EnoAlter | FrmErangeCnt

  class Card {
    /** The message in dual-port RAM and what the board is doing with it. */
    var state: State

    /** The board runs for a while. */
    method Interfere()
      requires Inv(state)
      modifies this
      ensures Inv(state) && Memory(state) && state.pc == old(state).pc && SameCommand(old(state).before, state.before)
      ensures state.target == old(state).target && state.count == old(state).count && state.looked == old(state).looked
    {
      hide Inv;
      var steps: nat := *;
      while steps > 0
        invariant Inv(state) && state.pc == old(state).pc && SameCommand(old(state).before, state.before)
        invariant state.target == old(state).target && state.count == old(state).count
            && state.looked == old(state).looked
      {
        var kind: nat := *;
        var word: bv16 := *;
        var entry: nat := *;
        var e := if kind == 0 then Fetch(entry) else if kind == 1 then SendData(word) else Finish;
        if Enabled(state, e) && Watched(state, e) {
          StepKeepsInv(state, e);
          BoardKeepsInv(state, e);
          state := Next(state, e);
        }
        steps := steps - 1;
      }
      InvHasMemory(state);
    }

    /** One statement of the host, which leaves `m` in memory; then the board goes on. */
    method AdvanceHost(m: Message)
      requires Inv(state) && Enabled(state, Host) && m == HostNext(state).m
      modifies this
      ensures Inv(state) && Memory(state) && state.pc == HostNext(old(state)).pc
          && SameCommand(old(state).before, state.before)
      ensures state.target == old(state).target && state.count == old(state).count && state.looked == old(state).looked
    {
      hide Inv;
      StepKeepsInv(state, Host);
      state := state.(m := m, pc := HostNext(state).pc);
      Interfere();
    }

    /** The halted message is rewritten and set going again. */
    method Patch(frameptr: bv16, count: bv16, tempWord: bv16, wasHalted: bool)
      requires Inv(state) && state.pc == Cleared && state.target == frameptr && state.count == count
      requires tempWord == HaltedJump(state.before.control) && wasHalted == IsHalted(state.before.control)
      modifies this
      ensures Inv(state) && state.pc == Succeeded && state.m == Jumped(old(state))
      ensures SameCommand(old(state).before, state.before) && state.target == frameptr && state.count == count
    {
      hide HaltedJump, IsHalted, Inv, Continued, NoAlter;
      InvHasMemory(state);
      AdvanceHost(state.m.(word1 := frameptr));
      AdvanceHost(state.m.(word2 := count));
      AdvanceHost(state.m.(control := if wasHalted then state.m.control else Continued(tempWord)));
    }

    /** A message that is being sent gets its control word back. */
    method Refuse(origCtrlword: bv16)
      requires Inv(state) && state.pc == HasHalted && NoAlter(state) && origCtrlword == state.before.control
      modifies this
      ensures Inv(state) && state.pc == Refused && state.m == state.before
      ensures SameCommand(old(state).before, state.before)
    {
      hide HaltedJump, IsHalted, Inv, Continued, FinalJump;
      AdvanceHost(state.m);
      AdvanceHost(state.m.(control := origCtrlword));
    }

    /** Set_Jump_Px, once the message and the frame are known to exist. */
    method SetJump(frameptr: bv16, msgcnt: bv16, intcnt: bv16) returns (status: Status)
      requires Inv(state) && state.pc == Begin
      requires state.target == frameptr && state.count == if intcnt == FULLFRAME then msgcnt else intcnt
      modifies this
      ensures Inv(state) && SameCommand(old(state).before, state.before)
      ensures status == FrmErangeCnt <==> intcnt > msgcnt
      ensures status == FrmErangeCnt ==> state == old(state)
      ensures status == Done ==> state.m == Message(FinalJump(old(state).m.control), frameptr, old(state).count)
      ensures status == EnoAlter ==> state.m == state.before
      ensures status == Done <==> state.pc == Succeeded
      ensures status == EnoAlter <==> state.pc == Refused
    {
      hide HaltedJump, IsHalted, Inv, Continued, NoAlter, FinalJump;
      if intcnt > msgcnt { return FrmErangeCnt; }
      InvHasMemory(state);
      Interfere();
      var origCtrlword := state.m.control;
      AdvanceHost(state.m);

      var tempWord := HaltedJump(origCtrlword);
      var wasHalted := IsHalted(origCtrlword);
      AdvanceHost(state.m.(control := tempWord));

      if NoAlter(state) {
        Refuse(origCtrlword);
        return EnoAlter;
      }
      AdvanceHost(state.m);
      Patch(frameptr, if intcnt == FULLFRAME then msgcnt else intcnt, tempWord, wasHalted);
      return Done;
    }
  }
}
