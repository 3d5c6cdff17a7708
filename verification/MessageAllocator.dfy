/**
 How the Bus Controller's messages are placed, one after the other in up to four blocks of the
 dual-port RAM.  Addresses are word addresses.
 */
module MessageAllocator {

  const MSGMAX := 1660
  const BLOCK1 := 0x2000
  const DPRAM_WORDS := 0x8000
  const LONGEST := 37

  datatype Processor = Intel | Nios | Amd(pcmcia: bool)

  /** Set_Mode's four message blocks; a block of size 0 is not there. */
  function BlockStart(p: Processor, n: nat): nat
  {
    if n == 1 then BLOCK1
    else if p.Amd? then if n == 2 then 0x3880 else if n == 3 && !p.pcmcia then 0x4000 else 0
    else if n == 2 then 0x2400 else if n == 3 then 0x3880 else 0x4000
  }

  function BlockSize(p: Processor, n: nat): nat
  {
    if n == 1 then 0x400
    else if p.Amd? then if n == 2 then 0x780 else if n == 3 && !p.pcmcia then 0x4000 else 0
    else if n == 2 then 0x1400 else if n == 3 then 0x780 else 0x4000
  }

  function BlockEnd(p: Processor, n: nat): nat { BlockStart(p, n) + BlockSize(p, n) }

  /** The last block that a message may fall through to. */
  function LastBlock(p: Processor, expanded: bool): nat { if p == Amd(true) then 2 else if expanded then 4 else 3 }

  // ---- The allocator ----

  /** `extent`: the words each message takes, its control word included.  `spilled`: see InBlocks. */
  datatype Allocator = Allocator(p: Processor, alloc: seq<nat>, extent: seq<nat>, nextid: nat, nextmsg: nat, block: nat,
                                 spilled: set<nat>)

  predicate Live(a: Allocator, id: int) { 1 <= id < a.nextid }

  /** The block that a failed create has walked into on an AMD board; it is not there. */
  predicate Stranded(a: Allocator) { a.p.Amd? && a.block == 4 }

  /** Where message id has to end. */
  function Limit(a: Allocator, id: nat): nat
    requires |a.alloc| == MSGMAX && a.nextid <= MSGMAX
  {
    if id + 1 < a.nextid then a.alloc[id + 1] else if Stranded(a) then DPRAM_WORDS else a.nextmsg
  }

  predicate Within(p: Processor, n: nat, start: nat, size: nat)
  {
    BlockStart(p, n) <= start && start + size <= BlockEnd(p, n)
  }

  predicate InOneBlock(p: Processor, start: nat, size: nat)
  {
    exists n :: 1 <= n <= 4 && Within(p, n, start, size)
  }

  /** Messages follow each other without overlap, in the order of their ids. */
  ghost predicate Ascending(a: Allocator)
    requires |a.alloc| == |a.extent| == MSGMAX && a.nextid <= MSGMAX
  {
    forall id :: 1 <= id < a.nextid ==>
      BLOCK1 <= a.alloc[id] && 1 <= a.extent[id] && a.alloc[id] + a.extent[id] <= Limit(a, id) <= DPRAM_WORDS
  }

  /** Every message lies in one block, but for those that were re-created across a block's end. */
  ghost predicate InBlocks(a: Allocator)
    requires |a.alloc| == |a.extent| == MSGMAX && a.nextid <= MSGMAX
  {
    forall id :: 1 <= id < a.nextid && id !in a.spilled ==> InOneBlock(a.p, a.alloc[id], a.extent[id])
  }

  ghost predicate AllocOk(a: Allocator)
  {
    && |a.alloc| == |a.extent| == MSGMAX && a.alloc[0] == 0 && 1 <= a.nextid <= MSGMAX && 1 <= a.block <= 4
    && (a.p == Amd(true) ==> a.block <= 2)
    && Within(a.p, a.block, a.nextmsg, 0)
    && Ascending(a) && InBlocks(a)
  }

  /** So any two messages are apart, and ids and addresses go the same way. */
  lemma {:induction false} SlotsDisjoint(a: Allocator, i: nat, j: nat)
    requires AllocOk(a) && 1 <= i < j < a.nextid
    ensures a.alloc[i] + a.extent[i] <= a.alloc[j]
    decreases j
  {
    if i + 1 < j { SlotsDisjoint(a, i, j - 1); }
  }

  /** The place a block offers: the next free word of the current one, the first word of a later one. */
  function FreeAt(a: Allocator, n: nat): nat { if n == a.block then a.nextmsg else BlockStart(a.p, n) }

  predicate FitsIn(a: Allocator, n: nat, need: nat) { FreeAt(a, n) + need <= BlockEnd(a.p, n) }

  predicate NoneBefore(a: Allocator, n: nat, need: nat) { forall b :: a.block <= b < n ==> !FitsIn(a, b, need) }

  /** The new message goes to the first block, from the current one on, that has room for it. */
  predicate IsFirstFit(a: Allocator, n: nat, need: nat)
  {
    a.block <= n <= 4 && FitsIn(a, n, need) && NoneBefore(a, n, need)
  }

  ghost predicate NoFit(a: Allocator, expanded: bool, need: nat)
  {
    forall b :: a.block <= b <= LastBlock(a.p, expanded) || b == a.block ==> !FitsIn(a, b, need)
  }

  lemma TryNext(a: Allocator, n: nat, need: nat)
    requires a.block <= n && NoneBefore(a, n, need) && FreeAt(a, n) + need > BlockEnd(a.p, n)
    ensures NoneBefore(a, n + 1, need) && FreeAt(a, n + 1) == BlockStart(a.p, n + 1)
  {
    hide BlockStart, BlockEnd;
  }

  lemma GiveUp(a: Allocator, n: nat, expanded: bool, need: nat)
    requires a.block <= n && NoneBefore(a, n + 1, need) && n >= LastBlock(a.p, expanded)
    ensures NoFit(a, expanded, need)
  {
    hide FitsIn, LastBlock;
  }

  lemma Settle(a: Allocator, n: nat, expanded: bool, need: nat)
    requires a.block <= n <= 4 && NoneBefore(a, n, need) && FreeAt(a, n) + need <= BlockEnd(a.p, n)
    requires n <= LastBlock(a.p, expanded) || n == a.block
    ensures IsFirstFit(a, n, need) && !NoFit(a, expanded, need)
  {
    hide BlockStart, BlockSize, BlockEnd, FreeAt;
    FirstFitIsFit(a, n, expanded, need);
  }

  lemma FirstFitIsFit(a: Allocator, n: nat, expanded: bool, need: nat)
    requires IsFirstFit(a, n, need) && (n <= LastBlock(a.p, expanded) || n == a.block)
    ensures !NoFit(a, expanded, need)
  {
    hide FitsIn;
  }

  /** A full non-PCMCIA AMD board in expanded mode goes on to a block it does not have. */
  predicate Strands(a: Allocator, expanded: bool) { a.p == Amd(false) && expanded && a.block == 3 }

  function AfterNoFit(a: Allocator, expanded: bool): Allocator
  {
    if Strands(a, expanded) then a.(block := 4, nextmsg := 0) else a
  }

  /**
   A fresh block always has room for the longest message, so a create fails only in the last block;
   then it changes nothing, but for the AMD boards above.
   */
  lemma FailsOnlyAtTheEnd(a: Allocator, expanded: bool, need: nat)
    requires AllocOk(a) && need <= LONGEST && NoFit(a, expanded, need)
    ensures a.block >= LastBlock(a.p, expanded) || Strands(a, expanded)
    ensures AfterNoFit(a, expanded) == a <==> !Strands(a, expanded)
  {
    hide AllocOk, FitsIn;
    Bounds(a);
    if a.block < LastBlock(a.p, expanded) && !Strands(a, expanded) {
      FreshFits(a, a.block + 1, need);
    }
  }

  lemma FreshFits(a: Allocator, n: nat, need: nat)
    requires a.block < n <= 4 && BlockSize(a.p, n) > 0 && need <= LONGEST
    ensures FitsIn(a, n, need)
  {
    FreshBlockHolds(a.p, n, need);
    hide BlockStart, BlockEnd;
  }

  /** The blocks that are there each hold the longest message; an AMD board has no fourth. */
  lemma BlockKinds(p: Processor)
    ensures BlockStart(p, 1) + LONGEST <= BlockEnd(p, 1)
    ensures BlockStart(p, 2) + LONGEST <= BlockEnd(p, 2)
    ensures p != Amd(true) ==> BlockStart(p, 3) + LONGEST <= BlockEnd(p, 3)
    ensures p.Amd? ==> BlockStart(p, 4) == BlockSize(p, 4) == 0
    ensures !p.Amd? ==> BlockStart(p, 4) + LONGEST <= BlockEnd(p, 4)
  {
  }

  /** The current block has no room for the message. */
  predicate Full(p: Processor, block: nat, nextmsg: nat, n: nat, need: nat)
  {
    block == n && nextmsg + need > BlockEnd(p, n)
  }

  /** The walk so far: no block up to here has room. */
  predicate Walking(a: Allocator, block: nat, nextmsg: nat, need: nat)
  {
    a.block <= block <= 4 && NoneBefore(a, block, need) && nextmsg == FreeAt(a, block)
  }

  lemma WalksOn(a: Allocator, block: nat, nextmsg: nat, n: nat, need: nat)
    requires Walking(a, block, nextmsg, need) && Full(a.p, block, nextmsg, n, need)
    ensures NoneBefore(a, n + 1, need) && (n < 4 ==> Walking(a, n + 1, BlockStart(a.p, n + 1), need))
  {
    TryNext(a, n, need);
    hide NoneBefore, FreeAt, BlockStart, BlockSize, BlockEnd;
  }

  /** The walk ends without a place only where it began, or in the block that is not there. */
  lemma WalkEnds(a: Allocator, block: nat, nextmsg: nat, expanded: bool, need: nat)
    requires AllocOk(a) && need <= LONGEST && Walking(a, block, nextmsg, need) && Full(a.p, block, nextmsg, block, need)
    requires block >= LastBlock(a.p, expanded) && (block == a.block || block <= LastBlock(a.p, expanded))
    ensures NoFit(a, expanded, need)
    ensures block == AfterNoFit(a, expanded).block && nextmsg == AfterNoFit(a, expanded).nextmsg
  {
    WalksOn(a, block, nextmsg, block, need);
    GiveUp(a, block, expanded, need);
    if block != a.block {
      OnlyTheMissingBlockIsFull(a, block, nextmsg, need);
    } else {
      hide AllocOk, NoFit, NoneBefore, BlockStart, BlockSize, BlockEnd;
    }
  }

  lemma OnlyTheMissingBlockIsFull(a: Allocator, block: nat, nextmsg: nat, need: nat)
    requires AllocOk(a) && need <= LONGEST && Walking(a, block, nextmsg, need) && Full(a.p, block, nextmsg, block, need)
    requires a.block < block && (a.p == Amd(true) ==> block <= 2)
    ensures a.p == Amd(false) && a.block == 3 && block == 4 && nextmsg == 0
  {
    BlockKinds(a.p);
    assert 1 <= a.block && nextmsg == BlockStart(a.p, block);
    assert a.block < 3 && block == 4 ==> !FitsIn(a, 3, need);
    hide BlockStart, BlockSize, BlockEnd, AllocOk, NoneBefore;
  }

  /** The first block with room, or 5. */
  function FirstFit(a: Allocator, n: nat, need: nat): nat
    decreases 5 - n
  {
    if n > 4 then 5 else if FitsIn(a, n, need) then n else FirstFit(a, n + 1, need)
  }

  lemma {:induction false} FirstFitIsFirst(a: Allocator, n: nat, need: nat)
    requires n <= 5
    ensures var r := FirstFit(a, n, need);
      n <= r <= 5 && (r <= 4 ==> FitsIn(a, r, need)) && forall b :: n <= b < r ==> !FitsIn(a, b, need)
    decreases 5 - n
  {
    hide FitsIn;
    if n <= 4 && !FitsIn(a, n, need) { FirstFitIsFirst(a, n + 1, need); }
  }

  /** The block for a new message; 0 if there is none. */
  function Chosen(a: Allocator, expanded: bool, need: nat): nat
    requires AllocOk(a)
  {
    var n := FirstFit(a, a.block, need);
    if n <= 4 && (n <= LastBlock(a.p, expanded) || n == a.block) then n else 0
  }

  lemma ChosenIsFirstFit(a: Allocator, expanded: bool, need: nat)
    requires AllocOk(a) && 1 <= need
    ensures var n := Chosen(a, expanded, need);
      if n == 0 then NoFit(a, expanded, need)
      else IsFirstFit(a, n, need) && FreeAt(a, n) + need <= DPRAM_WORDS && BLOCK1 <= FreeAt(a, n)
  {
    hide FitsIn, FreeAt, AllocOk, FirstFit, BlockStart, BlockSize, BlockEnd, Within;
    Bounds(a);
    FirstFitIsFirst(a, a.block, need);
    var n := Chosen(a, expanded, need);
    if n != 0 { NextIsFree(a, n, need); }
  }

  lemma NoneChosen(a: Allocator, expanded: bool, need: nat)
    requires AllocOk(a) && 1 <= need && NoFit(a, expanded, need)
    ensures Chosen(a, expanded, need) == 0
  {
    ChosenIsFirstFit(a, expanded, need);
    var n := Chosen(a, expanded, need);
    if n != 0 { FirstFitIsFit(a, n, expanded, need); }
    hide AllocOk, NoFit, IsFirstFit;
  }

  lemma ChosenIs(a: Allocator, n: nat, expanded: bool, need: nat)
    requires AllocOk(a) && IsFirstFit(a, n, need) && (n <= LastBlock(a.p, expanded) || n == a.block)
    ensures n == Chosen(a, expanded, need) && n != 0
  {
    hide FitsIn, FreeAt, AllocOk, LastBlock, FirstFit, BlockStart, BlockSize, BlockEnd, Within;
    Bounds(a);
    FirstFitIsFirst(a, a.block, need);
  }

  /** Create_1553_Message's walk through the blocks, from the card's current block and next free word. */
  method FindRoom(p: Processor, expanded: bool, msgBlock: nat, nextmsg: nat, need: nat, ghost a: Allocator)
    returns (found: bool, block: nat, free: nat)
    requires AllocOk(a) && a.p == p && a.block == msgBlock && a.nextmsg == nextmsg && 1 <= need <= LONGEST
    ensures found <==> !NoFit(a, expanded, need)
    ensures found <==> Chosen(a, expanded, need) != 0
    ensures found ==> block == Chosen(a, expanded, need) && free == FreeAt(a, block)
    ensures !found ==> block == AfterNoFit(a, expanded).block && free == AfterNoFit(a, expanded).nextmsg
  {
    WalkBegins(a, need);
    hide Chosen, Walking, BlockStart, BlockSize, BlockEnd, AllocOk, NoFit, IsFirstFit, FreeAt, AfterNoFit, NoneBefore,
        Full, FitsIn;
    block, free := msgBlock, nextmsg;
    if Full(p, block, free, 1, need) {
      WalksOn(a, block, free, 1, need);
      block, free := 2, BlockStart(p, 2);
    }
    if Full(p, block, free, 2, need) {
      if p == Amd(true) {
        NoPlace(a, block, free, expanded, need);
        return false, block, free;
      }
      WalksOn(a, block, free, 2, need);
      block, free := 3, BlockStart(p, 3);
    }
    if Full(p, block, free, 3, need) {
      if !expanded {
        NoPlace(a, block, free, expanded, need);
        return false, block, free;
      }
      WalksOn(a, block, free, 3, need);
      block, free := 4, BlockStart(p, 4);
    }
    if Full(p, block, free, 4, need) {
      NoPlace(a, block, free, expanded, need);
      return false, block, free;
    }
    Settled(a, block, free, expanded, need);
    ChosenIs(a, block, expanded, need);
    return true, block, free;
  }

  lemma NoPlace(a: Allocator, block: nat, nextmsg: nat, expanded: bool, need: nat)
    requires AllocOk(a) && 1 <= need <= LONGEST && Walking(a, block, nextmsg, need)
        && Full(a.p, block, nextmsg, block, need)
    requires block >= LastBlock(a.p, expanded) && (block == a.block || block <= LastBlock(a.p, expanded))
    ensures NoFit(a, expanded, need) && Chosen(a, expanded, need) == 0
    ensures block == AfterNoFit(a, expanded).block && nextmsg == AfterNoFit(a, expanded).nextmsg
  {
    hide AllocOk, NoFit, Chosen, Walking, Full, LastBlock, AfterNoFit;
    WalkEnds(a, block, nextmsg, expanded, need);
    NoneChosen(a, expanded, need);
  }

  lemma WalkBegins(a: Allocator, need: nat)
    requires AllocOk(a)
    ensures Walking(a, a.block, a.nextmsg, need) && 1 <= a.block <= 4 && (a.p == Amd(true) ==> a.block <= 2)
  {
  }

  lemma Settled(a: Allocator, block: nat, nextmsg: nat, expanded: bool, need: nat)
    requires Walking(a, block, nextmsg, need) && !Full(a.p, block, nextmsg, block, need)
    requires block <= LastBlock(a.p, expanded) || block == a.block
    ensures IsFirstFit(a, block, need) && !NoFit(a, expanded, need) && nextmsg == FreeAt(a, block)
  {
    hide BlockStart, BlockSize, BlockEnd, FreeAt;
    Settle(a, block, expanded, need);
  }

  function AfterCreate(a: Allocator, n: nat, need: nat): Allocator
    requires AllocOk(a) && a.nextid < MSGMAX
  {
    a.(alloc := a.alloc[a.nextid := FreeAt(a, n)], extent := a.extent[a.nextid := need], nextid := a.nextid + 1,
       nextmsg := FreeAt(a, n) + need, block := n, spilled := a.spilled - {a.nextid})
  }

  lemma CreateKeepsAlloc(a: Allocator, n: nat, need: nat)
    requires AllocOk(a) && a.nextid < MSGMAX && 1 <= need && IsFirstFit(a, n, need)
    ensures AllocOk(AfterCreate(a, n, need)) && InOneBlock(a.p, FreeAt(a, n), need)
    ensures !Stranded(a) && BLOCK1 <= FreeAt(a, n) && FreeAt(a, n) + need <= DPRAM_WORDS
    ensures forall i :: 1 <= i < a.nextid ==> a.alloc[i] + a.extent[i] <= FreeAt(a, n)
  {
    hide InOneBlock;
    var a' := AfterCreate(a, n, need);
    NextIsFree(a, n, need);
    FirstIn(a.p, n, FreeAt(a, n), need);
    forall i | 1 <= i < a.nextid ensures a.alloc[i] + a.extent[i] <= FreeAt(a, n) {
      if i + 1 < a.nextid { SlotsDisjoint(a, i, a.nextid - 1); }
    }
  }

  lemma FirstIn(p: Processor, n: nat, start: nat, size: nat)
    requires 1 <= n <= 4 && Within(p, n, start, size)
    ensures InOneBlock(p, start, size)
  {
  }

  lemma NextIsFree(a: Allocator, n: nat, need: nat)
    requires AllocOk(a) && 1 <= need && IsFirstFit(a, n, need)
    ensures !Stranded(a) && a.nextmsg <= FreeAt(a, n) && BLOCK1 <= FreeAt(a, n) && FreeAt(a, n) + need <= DPRAM_WORDS
    ensures Within(a.p, n, FreeAt(a, n), need) && (a.p == Amd(true) ==> n <= 2)
  {
    hide Ascending, InBlocks;
  }

  /** A fresh block that is there always has room for the longest message. */
  lemma FreshBlockHolds(p: Processor, n: nat, need: nat)
    requires 1 <= n <= 4 && BlockSize(p, n) > 0 && need <= LONGEST
    ensures BlockStart(p, n) + need <= BlockEnd(p, n)
  {
  }

  lemma NoFitKeepsAlloc(a: Allocator, expanded: bool)
    requires AllocOk(a)
    ensures AllocOk(AfterNoFit(a, expanded))
  {
  }

  function AfterReCreate(a: Allocator, id: nat, totsize: nat): Allocator
    requires AllocOk(a) && Live(a, id)
  {
    a.(extent := a.extent[id := totsize],
       spilled := if InOneBlock(a.p, a.alloc[id], totsize) then a.spilled - {id} else a.spilled + {id})
  }

  /** Re-creating within the room up to the next message keeps all messages apart. */
  lemma ReCreateKeepsAlloc(a: Allocator, id: nat, totsize: nat)
    requires AllocOk(a) && Live(a, id) && 1 <= totsize && a.alloc[id] + totsize <= Limit(a, id)
    ensures AllocOk(AfterReCreate(a, id, totsize))
  {
    hide InOneBlock, BlockStart, BlockSize, BlockEnd, Within;
    var b := AfterReCreate(a, id, totsize);
    forall j | 1 <= j < a.nextid
      ensures BLOCK1 <= b.alloc[j] && 1 <= b.extent[j] && b.alloc[j] + b.extent[j] <= Limit(b, j) <= DPRAM_WORDS
    {
      assert Limit(b, j) == Limit(a, j);
    }
  }

  /** It stays in its block exactly unless the room it takes runs over the block's end. */
  lemma ReCreateSpillsWhen(a: Allocator, id: nat, totsize: nat, n: nat)
    requires AllocOk(a) && Live(a, id) && 1 <= n <= 4 && 1 <= totsize && BlockSize(a.p, n) > 0
    requires Within(a.p, n, a.alloc[id], 1)
    ensures id in AfterReCreate(a, id, totsize).spilled <==> a.alloc[id] + totsize > BlockEnd(a.p, n)
  {
    var start := a.alloc[id];
    hide AllocOk, BlockStart, BlockSize, BlockEnd, Ascending, InBlocks;
    if start + totsize <= BlockEnd(a.p, n) {
      FirstIn(a.p, n, start, totsize);
    } else if InOneBlock(a.p, start, totsize) {
      var m :| 1 <= m <= 4 && Within(a.p, m, start, totsize);
      BlocksApart(a.p, n, m, start, totsize);
    }
  }

  lemma BlocksApart(p: Processor, n: nat, m: nat, start: nat, size: nat)
    requires 1 <= n <= 4 && 1 <= m <= 4 && 1 <= size
    requires Within(p, n, start, 1) && Within(p, m, start, size)
    ensures n == m
  {
  }

  /** The last message of block 2, re-created longer, runs on past the block; the next message is in block 3. */
  lemma ReCreateSpills() returns (a: Allocator)
    ensures AllocOk(a) && a.p == Nios && a.nextid == 3 && a.block == 3 && a.spilled == {}
    ensures a.alloc[1] + 20 <= Limit(a, 1) && BlockStart(a.p, 2) <= a.alloc[1]
    ensures 1 in AfterReCreate(a, 1, 20).spilled
  {
    a := Allocator(Nios, seq(MSGMAX, i => if i == 1 then 0x37F0 else if i == 2 then 0x3880 else 0),
                   seq(MSGMAX, i => if i == 1 then 16 else 4), 3, 0x3884, 3, {});
    FirstIn(Nios, 2, 0x37F0, 16);
    FirstIn(Nios, 3, 0x3880, 4);
    ReCreateSpillsWhen(a, 1, 20, 2);
  }

  /** A full AMD board: a message that fits nowhere moves it on to the block that is not there, below all messages. */
  lemma CreateStrands() returns (a: Allocator)
    ensures AllocOk(a) && a.p == Amd(false) && a.nextid == 2 && a.alloc[1] == 0x7FE0 && NoFit(a, true, LONGEST)
    ensures AfterNoFit(a, true) != a && AfterNoFit(a, true).nextmsg < a.alloc[1]
  {
    a := Allocator(Amd(false), seq(MSGMAX, i => if i == 1 then 0x7FE0 else 0),
                   seq(MSGMAX, i => if i == 1 then 0x10 else 0), 2, 0x7FF0, 3, {});
    FirstIn(Amd(false), 3, 0x7FE0, 0x10);
    assert !FitsIn(a, 3, LONGEST) && !FitsIn(a, 4, LONGEST);
  }

  /**
   Over any run: the allocator's steps, as the functions of the library take them.  Alterations move
   no message, so they are not steps here.
   */
  datatype Step = Create(need: nat) | ReCreate(id: nat, totsize: nat) | Clear

  function Cleared(a: Allocator): Allocator
    requires AllocOk(a)
  {
    a.(alloc := seq(MSGMAX, _ => 0), nextid := 1, nextmsg := BLOCK1, block := 1)
  }

  lemma ClearKeepsAlloc(a: Allocator)
    requires AllocOk(a)
    ensures AllocOk(Cleared(a))
  {
  }

  function Stepped(a: Allocator, expanded: bool, s: Step): Allocator
    requires AllocOk(a)
  {
    match s
    case Create(need) =>
      if a.nextid == MSGMAX || need < 1 || need > LONGEST then a
      else
        var n := Chosen(a, expanded, need);
        if n != 0 then AfterCreate(a, n, need) else AfterNoFit(a, expanded)
    case ReCreate(id, totsize) =>
      if !Live(a, id) || totsize < 1 || a.alloc[id] + totsize > Limit(a, id) then a else AfterReCreate(a, id, totsize)
    case Clear => Cleared(a)
  }

  ghost function Run(a: Allocator, steps: seq<(bool, Step)>): Allocator
    requires AllocOk(a)
    ensures AllocOk(Run(a, steps))
    decreases |steps|
  {
    if steps == [] then a
    else
      StepKeepsAlloc(a, steps[0].0, steps[0].1);
      Run(Stepped(a, steps[0].0, steps[0].1), steps[1..])
  }

  lemma StepKeepsAlloc(a: Allocator, expanded: bool, s: Step)
    requires AllocOk(a)
    ensures AllocOk(Stepped(a, expanded, s))
  {
    hide AllocOk, AfterCreate, AfterReCreate, Cleared, Chosen, IsFirstFit, NoFit;
    match s
    case Create(need) =>
      if a.nextid != MSGMAX && 1 <= need <= LONGEST {
        assert 1 <= a.block <= 4 && a.nextid < MSGMAX by { Bounds(a); }
        var n := Chosen(a, expanded, need);
        ChosenIsFirstFit(a, expanded, need);
        if n != 0 {
          CreateKeepsAlloc(a, n, need);
        } else {
          NoFitKeepsAlloc(a, expanded);
        }
      }
    case ReCreate(id, totsize) =>
      Bounds(a);
      if Live(a, id) && 1 <= totsize && a.alloc[id] + totsize <= Limit(a, id) {
        ReCreateKeepsAlloc(a, id, totsize);
      }
    case Clear => ClearKeepsAlloc(a);
  }

  lemma Bounds(a: Allocator)
    requires AllocOk(a)
    ensures |a.alloc| == |a.extent| == MSGMAX && 1 <= a.nextid <= MSGMAX && 1 <= a.block <= 4
    ensures a.p == Amd(true) ==> a.block <= 2
  {
  }

  function Initial(p: Processor): Allocator
  {
    Allocator(p, seq(MSGMAX, _ => 0), seq(MSGMAX, _ => 0), 1, BLOCK1, 1, {})
  }

  /**
   After any creates, re-creates and clears, with the expansion switched as one likes: two messages
   never share a word, later ids lie higher, and a message lies in one block unless it is one that
   was re-created across a block's end.
   */
  lemma {:induction false} MessagesNeverOverlap(p: Processor, steps: seq<(bool, Step)>, i: nat, j: nat)
    requires 1 <= i < j
    ensures AllocOk(Initial(p))
    ensures var a := Run(Initial(p), steps);
      && |a.alloc| == |a.extent| == MSGMAX && a.nextid <= MSGMAX
      && (j < a.nextid ==>
        && BLOCK1 <= a.alloc[i] < a.alloc[i] + a.extent[i] <= a.alloc[j] < a.alloc[j] + a.extent[j] <= DPRAM_WORDS
        && (j !in a.spilled ==> InOneBlock(p, a.alloc[j], a.extent[j])))
  {
    hide InOneBlock, BlockStart, BlockSize, BlockEnd;
    InitialOk(p);
    var a := Run(Initial(p), steps);
    RunKeepsProcessor(Initial(p), steps);
    if j < a.nextid { SlotsDisjoint(a, i, j); }
  }

  lemma InitialOk(p: Processor)
    ensures AllocOk(Initial(p))
  {
  }

  lemma {:induction false} RunKeepsProcessor(a: Allocator, steps: seq<(bool, Step)>)
    requires AllocOk(a)
    ensures Run(a, steps).p == a.p
    decreases |steps|
  {
    hide AllocOk;
    if steps != [] {
      StepKeepsAlloc(a, steps[0].0, steps[0].1);
      RunKeepsProcessor(Stepped(a, steps[0].0, steps[0].1), steps[1..]);
    }
  }
}
