/**
 Reading monitored messages one at a time, straight from the module or through a cache that is
 refilled with many blocks at once, while the board goes on writing blocks.
 */
module MonitorCache {
  import opened Common
  import opened RingArithmetic

  const BLOCK_BYTES := 80
  const CACHE_BLOCKS := 51

  /** Where the blocks lie: four banks in sequential mode, one bank for the concurrent monitor. */
  datatype Mode = Sequential(lastblock: nat) | BcRt | Rt(expanded: bool)
  {
    predicate Valid() { Sequential? ==> lastblock in {200, 400, 800} }

    function Blocks(): nat
    {
      match this
      case Sequential(n) => n
      case BcRt => 0x199
      case Rt(expanded) => if expanded then 0xCC else 0x199
    }

    /** Byte offset of block k from the start of the module. */
    function Offset(k: nat): nat
    {
      if !Sequential? then 0x8000 + k * BLOCK_BYTES
      else if k < 200 then k * BLOCK_BYTES
      else if k < 353 then 0x4000 + (k - 200) * BLOCK_BYTES
      else if k < 400 then 0x7100 + (k - 353) * BLOCK_BYTES
      else 0x7FB0 + (k - 400) * BLOCK_BYTES
    }

    /** Last byte of the bank in which a block at offset `begin` lies. */
    function BankEnd(begin: nat): nat
    {
      match this
      case BcRt => 0xFFCF
      case Rt(expanded) => if expanded then 0xBFBF else 0xFFCF
      case Sequential(_) =>
        if begin < 0x3E7F then 0x3E7F
        else if begin < 0x6FCF then 0x6FCF
        else if begin < 0x7FAF then 0x7FAF
        else 0xFCAF
    }
  }

  /** The last byte that a refill starting at offset `begin` asks for. */
  function WindowEnd(mode: Mode, begin: nat, maxBlocks: nat): int
  {
    Min(begin + maxBlocks * BLOCK_BYTES - 1, mode.BankEnd(begin))
  }

  /**
   A refill that starts at block k asks for a whole number n of blocks, at least one and at most
   `maxBlocks`; they are blocks k..k+n of the same bank, and no other block starts in the window.
   */
  lemma WindowIsWholeBlocks(mode: Mode, k: nat, maxBlocks: nat) returns (n: nat)
    requires mode.Valid() && k < mode.Blocks() && 0 < maxBlocks
    ensures 0 < n <= maxBlocks && k + n <= mode.Blocks()
    ensures WindowEnd(mode, mode.Offset(k), maxBlocks) + 1 == mode.Offset(k) + n * BLOCK_BYTES
    ensures WindowEnd(mode, mode.Offset(k), maxBlocks) <= mode.BankEnd(mode.Offset(k))
    ensures forall i :: 0 <= i < n ==> mode.Offset(k + i) == mode.Offset(k) + i * BLOCK_BYTES
    ensures forall j :: 0 <= j < mode.Blocks() &&
                        mode.Offset(k) <= mode.Offset(j) < WindowEnd(mode, mode.Offset(k), maxBlocks) ==>
              k <= j < k + n
  {
    n := Min(maxBlocks,
             match mode
             case Sequential(_) =>
               if k < 200 then 200 - k else if k < 353 then 353 - k else if k < 400 then 400 - k else 800 - k
             case _ => mode.Blocks() - k);
  }

  // ---- The board ----

  datatype Message = Message(status: nat, timetag: nat, words: seq<nat>, counter: nat)

  /** A message block: the end-of-message bit of its status word, and the rest. */
  datatype Block = Block(eom: bool, msg: Message)

  /**
   Of the messages ever written, those from number `lo` on are unread: each sits in its slot with
   its end-of-message bit on, unless it is one of the `lost`, whose bits were cleared unread; and every
   other slot has the bit off.
   */
  ghost predicate Unread(blocks: seq<Block>, lo: nat, log: seq<Message>, lost: set<nat>)
  {
    && 0 < |blocks| && lo <= |log| <= lo + |blocks|
    && (forall k :: k in lost ==> lo <= k < |log|)
    && forall k :: lo <= k < lo + |blocks| ==>
         if k < |log| then blocks[Slot(k, |blocks|)] == Block(k !in lost, log[k])
         else !blocks[Slot(k, |blocks|)].eom
  }

  lemma BlockOf(blocks: seq<Block>, lo: nat, log: seq<Message>, lost: set<nat>, k: nat)
    requires Unread(blocks, lo, log, lost) && lo <= k < lo + |blocks|
    ensures blocks[Slot(k, |blocks|)].eom <==> k < |log| && k !in lost
    ensures k < |log| ==> blocks[Slot(k, |blocks|)].msg == log[k]
  {
  }

  /** Copies of the blocks of messages from, from+1, ...: those with the bit on are those messages. */
  ghost predicate Copied(cache: seq<Block>, from: nat, log: seq<Message>, lost: set<nat>)
  {
    forall j :: 0 <= j < |cache| && cache[j].eom ==>
      from + j < |log| && from + j !in lost && cache[j] == Block(true, log[from + j])
  }

  lemma NothingCopied(from: nat, log: seq<Message>, lost: set<nat>)
    ensures Copied([], from, log, lost)
  {
  }

  lemma CopiedStep(cache: seq<Block>, b: Block, from: nat, log: seq<Message>, log': seq<Message>, lost: set<nat>)
    requires Copied(cache, from, log, lost) && log <= log'
    requires b.eom ==> var k := from + |cache|; k < |log'| && k !in lost && b == Block(true, log'[k])
    ensures Copied(cache + [b], from, log', lost)
  {
  }

  lemma SlotsDiffer(a: nat, b: nat, n: nat)
    requires 0 < n && a < b < a + n
    ensures Slot(a, n) != Slot(b, n)
  {
    PositionsDiffer(a, b, n);
  }

  lemma WriteUnread(blocks: seq<Block>, lo: nat, log: seq<Message>, lost: set<nat>, m: Message)
    requires Unread(blocks, lo, log, lost) && |log| < lo + |blocks|
    ensures Unread(blocks[Slot(|log|, |blocks|) := Block(true, m)], lo, log + [m], lost)
  {
    OthersKeepSlots(lo, |log|, |blocks|);
  }

  /** Within one lap no other message has this one's slot. */
  lemma OthersKeepSlots(lo: nat, m: nat, n: nat)
    requires 0 < n && lo <= m < lo + n
    ensures forall k :: lo <= k < lo + n && k != m ==> Slot(k, n) != Slot(m, n)
  {
    forall k | lo <= k < lo + n && k != m
      ensures Slot(k, n) != Slot(m, n)
    {
      SlotsDiffer(if k < m then k else m, if k < m then m else k, n);
    }
  }

  /** Turning the oldest unread message's bit off makes it read. */
  lemma ClearUnread(blocks: seq<Block>, lo: nat, log: seq<Message>, lost: set<nat>)
    requires Unread(blocks, lo, log, lost) && lo < |log| && lo !in lost
    ensures var s := Slot(lo, |blocks|); Unread(blocks[s := blocks[s].(eom := false)], lo + 1, log, lost)
  {
    OneLapBack(lo + |blocks|, |blocks|);
    OthersKeepSlots(lo, lo, |blocks|);
  }

  /** Turning the bit of a message off that is not the reader's to take loses the message, if there is one. */
  lemma ClearLoses(blocks: seq<Block>, lo: nat, log: seq<Message>, lost: set<nat>, m: nat)
    requires Unread(blocks, lo, log, lost) && lo <= m < lo + |blocks|
    ensures var s := Slot(m, |blocks|);
      Unread(blocks[s := blocks[s].(eom := false)], lo, log, if m < |log| then lost + {m} else lost)
  {
    OthersKeepSlots(lo, m, |blocks|);
  }

  /** A later time tag may be smaller only because the 32-bit clock wrapped. */
  predicate GoesBack(last: nat, tag: nat) { tag < last && last - tag < 0x10000000 }

  const CLOCK: nat := 0x1_0000_0000

  /**
   The tags of two messages, the second later by less than a turn of the clock: the check lets them
   pass just if the clock has not wrapped between them or they lie far enough apart.
   */
  lemma LaterTagPassesWhen(a: nat, b: nat)
    requires a <= b < a + CLOCK
    ensures !GoesBack(a % CLOCK, b % CLOCK) <==> a / CLOCK == b / CLOCK || b - a <= CLOCK - 0x10000000
  {
    assert a == a / CLOCK * CLOCK + a % CLOCK && b == b / CLOCK * CLOCK + b % CLOCK;
  }

  /** The time tag that message k is compared with. */
  ghost function TagBefore(log: seq<Message>, k: nat): nat
    requires k <= |log|
  {
    if k == 0 then 0 else log[k - 1].timetag
  }

  ghost predicate TagsInOrder(log: seq<Message>)
  {
    forall k :: 0 <= k < |log| ==> !GoesBack(TagBefore(log, k), log[k].timetag)
  }

  lemma TagKept(log: seq<Message>, log': seq<Message>, k: nat)
    requires k <= |log| && log <= log'
    ensures TagBefore(log', k) == TagBefore(log, k)
  {
  }

  lemma TagOf(log: seq<Message>, k: nat)
    requires TagsInOrder(log) && k < |log|
    ensures !GoesBack(TagBefore(log, k), log[k].timetag) && TagBefore(log, k + 1) == log[k].timetag
  {
  }

  lemma TagsStayInOrder(log: seq<Message>, m: Message)
    requires TagsInOrder(log) && !GoesBack(TagBefore(log, |log|), m.timetag)
    ensures TagsInOrder(log + [m])
  {
    forall k | 0 <= k < |log + [m]|
      ensures !GoesBack(TagBefore(log + [m], k), (log + [m])[k].timetag)
    {
      assert TagBefore(log + [m], k) == TagBefore(log, k);
    }
  }

  class Board {
    const mode: Mode
    const blocks: array<Block>
    ghost var log: seq<Message>
    var head: nat
    var lastTag: nat

    ghost predicate Valid()
      reads this
    {
      && mode.Valid() && blocks.Length == mode.Blocks() && head == |log|
      && lastTag == TagBefore(log, head) && TagsInOrder(log)
    }

    constructor (m: Mode, memory: array<Block>)
      requires m.Valid() && memory.Length == m.Blocks()
      requires forall s :: 0 <= s < memory.Length ==> !memory[s].eom
      ensures Valid() && mode == m && blocks == memory && log == [] && Unread(blocks[..], 0, log, {})
    {
      mode, blocks, log, head, lastTag := m, memory, [], 0, 0;
    }

    /** One whole block, its end-of-message bit on, into the next slot. */
    method Write(m: Message, ghost lo: nat, ghost lost: set<nat>)
      requires Valid() && head < lo + blocks.Length && Unread(blocks[..], lo, log, lost)
      requires !GoesBack(lastTag, m.timetag)
      modifies this, blocks
      ensures Valid() && log == old(log) + [m] && head == old(head) + 1 && Unread(blocks[..], lo, log, lost)
    {
      hide Unread, Slot, TagsInOrder, GoesBack;
      ghost var was := blocks[..];
      WriteUnread(was, lo, log, lost, m);
      TagsStayInOrder(log, m);
      var s := Slot(head, blocks.Length);
      blocks[s] := Block(true, m);
      assert blocks[..] == was[s := Block(true, m)];
      log, head, lastTag := log + [m], head + 1, m.timetag;
    }

    /**
     Between two host accesses the board may write any number of whole blocks, in turn, each with
     its end-of-message bit on and time tags in order, but never so many that it laps a reader who has been handed
     `limit - blocks.Length` messages.
     */
    method Interfere(limit: nat, ghost lo: nat, ghost lost: set<nat>)
      requires Valid() && head <= limit <= lo + blocks.Length && Unread(blocks[..], lo, log, lost)
      modifies this, blocks
      ensures Valid() && head <= limit && Unread(blocks[..], lo, log, lost) && old(log) <= log
    {
      hide Unread, Slot, TagsInOrder, GoesBack;
      var steps: nat := *;
      while steps > 0
        invariant Valid() && head <= limit && Unread(blocks[..], lo, log, lost) && old(log) <= log
      {
        var m: Message := *;
        if head < limit && !GoesBack(lastTag, m.timetag) {
          Write(m, lo, lost);
        }
        steps := steps - 1;
      }
    }
  }

  // ---- The host ----

  datatype Outcome = Delivered(msg: Message, block: nat) | NoMessage | Overrun

  lemma SlotOfSlot(m: nat, n: nat)
    requires 0 < n
    ensures Slot(Slot(m, n), n) == Slot(m, n)
  {
    QuotientIsUnique(m % n, 0, n, m % n);
  }

  lemma SlotAdvances(a: nat, b: nat, n: nat)
    requires 0 < n && Slot(a, n) == Slot(b, n)
    ensures Slot(a + 1, n) == Slot(b + 1, n)
  {
    if a % n + 1 < n {
      PositionShifts(a, 1, n);
      PositionShifts(b, 1, n);
    } else {
      QuotientIsUnique(a + 1, a / n + 1, n, 0);
      QuotientIsUnique(b + 1, b / n + 1, n, 0);
    }
  }

  /** Positions in a window that starts at message `start` and spans `length` slots of one bank. */
  lemma SlotInWindow(start: nat, m: nat, length: nat, n: nat)
    requires 0 < n && start <= m <= start + length && length < n && Slot(start, n) + length <= n
    ensures m < start + length ==> Slot(m, n) == Slot(start, n) + (m - start)
    ensures m == start + length ==> !(Slot(start, n) <= Slot(m, n) < Slot(start, n) + length)
  {
    if Slot(start, n) + (m - start) < n {
      PositionShifts(start, m - start, n);
    } else {
      QuotientIsUnique(m, start / n + 1, n, 0);
    }
  }

  class Monitor {
    const board: Board
    const caching: bool
    const maxBlocks: nat
    const msgBlockData: array<Block>
    var next: nat
    var lastmsgttag: nat
    var dmaCopyIsValid: bool
    var beginDpramOffset: nat
    var endDpramOffset: int
    // how many messages have been handed out, which bounds the board's writes, and how many marked as read
    var delivered: nat
    var fetched: nat
    // the window in the cache starts with message `start`; messages below `fetched` are in it
    ghost var start: nat
    ghost var length: nat
    // messages whose bits were cleared without their having been fetched
    ghost var lost: set<nat>

    ghost predicate Valid()
      reads this, board, board.blocks, msgBlockData
    {
      && board.Valid() && msgBlockData.Length == CACHE_BLOCKS && msgBlockData != board.blocks
      && 0 < maxBlocks <= CACHE_BLOCKS
      && delivered <= fetched <= board.head <= delivered + board.blocks.Length
      && Unread(board.blocks[..], fetched, board.log, lost)
      && Slot(next, board.blocks.Length) == Slot(delivered, board.blocks.Length)
      && lastmsgttag == TagBefore(board.log, delivered)
      && if dmaCopyIsValid then caching && Window() else fetched == delivered
    }

    ghost predicate Window()
      requires board.Valid() && msgBlockData.Length == CACHE_BLOCKS
      reads this, board, msgBlockData
    {
      var first := Slot(start, board.blocks.Length);
      && start <= delivered <= fetched <= start + length && fetched <= |board.log|
      && 0 < length <= maxBlocks <= CACHE_BLOCKS && first + length <= board.blocks.Length
      && beginDpramOffset == board.mode.Offset(first)
      && endDpramOffset == WindowEnd(board.mode, beginDpramOffset, maxBlocks)
      && endDpramOffset + 1 == beginDpramOffset + length * BLOCK_BYTES
      && (forall i :: 0 <= i < fetched - start ==> msgBlockData[i] == Block(true, board.log[start + i]))
      && (fetched < start + length ==> !msgBlockData[fetched - start].eom)
    }

    constructor (b: Board, cached: bool, limit: nat)
      requires b.Valid() && b.log == [] && Unread(b.blocks[..], 0, b.log, {}) && 0 < limit <= CACHE_BLOCKS
      ensures Valid() && board == b && caching == cached && maxBlocks == limit && delivered == 0 && lost == {}
    {
      board, caching, maxBlocks := b, cached, limit;
      msgBlockData := new Block[CACHE_BLOCKS](_ => Block(false, Message(0, 0, [], 0)));
      next, lastmsgttag, delivered := 0, 0, 0;
      dmaCopyIsValid, beginDpramOffset, endDpramOffset := false, 0, 0;
      start, length, fetched, lost := 0, 0, 0, {};
    }

    /**
     A block found in the window is a whole block of the cache, the one of the message wanted next;
     and while fetched messages are undelivered, it is found there with its bit on.
     */
    lemma HitIsRight()
      requires Valid() && dmaCopyIsValid
      ensures var off := board.mode.Offset(Slot(delivered, board.blocks.Length));
              && (beginDpramOffset <= off < endDpramOffset ==>
                    && delivered < start + length
                    && off == beginDpramOffset + (delivered - start) * BLOCK_BYTES
                    && off + BLOCK_BYTES <= endDpramOffset + 1)
              && (delivered < fetched ==>
                    && beginDpramOffset <= off < endDpramOffset
                    && msgBlockData[delivered - start] == Block(true, board.log[delivered]))
    {
      hide Unread, Slot, TagsInOrder, TagBefore;
      var n, first := board.blocks.Length, Slot(start, board.blocks.Length);
      var k := WindowIsWholeBlocks(board.mode, first, maxBlocks);
      assert k == length;
      SlotInWindow(start, delivered, length, n);
      if delivered < fetched {
        var i := delivered - start;
        assert msgBlockData[i] == Block(true, board.log[start + i]);
        assert board.mode.Offset(first + i) == board.mode.Offset(first) + i * BLOCK_BYTES;
      }
    }

    ghost predicate Sharing(lo: nat, limit: nat)
      reads this, board, board.blocks
    {
      && board.Valid() && msgBlockData.Length == CACHE_BLOCKS && msgBlockData != board.blocks
      && lo <= board.head <= limit <= lo + board.blocks.Length && Unread(board.blocks[..], lo, board.log, lost)
    }

    /** A multi-block read: block after block, the board may write between any two of them. */
    method CopyWindow(first: nat, n: nat)
      requires Sharing(delivered, delivered + board.blocks.Length)
      requires n <= CACHE_BLOCKS && n < board.blocks.Length && first + n <= board.blocks.Length
      requires first == Slot(delivered, board.blocks.Length)
      modifies board, board.blocks, msgBlockData
      ensures Sharing(delivered, delivered + board.blocks.Length) && old(board.log) <= board.log
      ensures Copied(msgBlockData[..n], delivered, board.log, lost)
      ensures 0 < n && delivered < old(board.head) && delivered !in lost ==> msgBlockData[0].eom
    {
      hide Unread, Slot, Copied, TagsInOrder, TagBefore;
      NothingCopied(delivered, board.log, lost);
      assert msgBlockData[..0] == [];
      for i := 0 to n
        invariant Sharing(delivered, delivered + board.blocks.Length) && old(board.log) <= board.log
        invariant Copied(msgBlockData[..i], delivered, board.log, lost)
        invariant 0 < i && delivered < old(board.head) && delivered !in lost ==> msgBlockData[0].eom
      {
        ghost var log, cache := board.log, msgBlockData[..i];
        board.Interfere(delivered + board.blocks.Length, delivered, lost);
        SlotInWindow(delivered, delivered + i, n, board.blocks.Length);
        BlockOf(board.blocks[..], delivered, board.log, lost, delivered + i);
        CopiedStep(cache, board.blocks[first + i], delivered, log, board.log, lost);
        msgBlockData[i] := board.blocks[first + i];
        assert msgBlockData[..i + 1] == cache + [board.blocks[first + i]];
      }
    }

    /**
     Scans the cache's blocks up to the first without its end-of-message bit, and turns the bits of the
     blocks they stand for off on the board.  When the blocks are not just `copied`, because the transfer was
     refused, messages that have come in since are lost.
     */
    method ClearEoms(first: nat, n: nat, copied: bool)
      requires Sharing(delivered, delivered + board.blocks.Length)
      requires 0 < n <= CACHE_BLOCKS && n < board.blocks.Length && first + n <= board.blocks.Length
      requires first == Slot(delivered, board.blocks.Length)
      requires copied ==> Copied(msgBlockData[..n], delivered, board.log, lost)
      modifies this`fetched, this`lost, board, board.blocks
      ensures Sharing(fetched, delivered + board.blocks.Length) && old(board.log) <= board.log
      ensures copied ==> lost == old(lost) && Marked(n)
      ensures !copied ==> fetched == delivered && Loses(old(lost), old(board.head), n)
    {
      hide Unread, Slot, TagsInOrder, TagBefore;
      fetched := delivered;
      var i := 0;
      while i < n && msgBlockData[i].eom
        invariant i <= n && fetched == (if copied then delivered + i else delivered) <= |board.log|
        invariant Sharing(fetched, delivered + board.blocks.Length) && old(board.log) <= board.log
        invariant copied ==> lost == old(lost) && Copied(msgBlockData[..n], delivered, board.log, lost)
        invariant copied ==> forall j :: 0 <= j < i ==> msgBlockData[j] == Block(true, board.log[delivered + j])
        invariant !copied ==> old(lost) <= lost && (i == 0 ==> lost == old(lost)) && (0 < i ==> msgBlockData[0].eom)
        invariant !copied ==> forall k :: k in lost && k !in old(lost) ==>
                    delivered <= k < delivered + i && msgBlockData[k - delivered].eom
        invariant !copied && 0 < i && delivered < old(board.head) ==> delivered in lost
      {
        assert copied ==> msgBlockData[..n][i] == msgBlockData[i];
        ClearEom(first, i, n, copied);
        i := i + 1;
      }
    }

    /** Turns the bit of the window's i-th block off: a message read, or one lost if the cache has no copy of it. */
    method ClearEom(first: nat, i: nat, n: nat, copied: bool)
      requires Sharing(fetched, delivered + board.blocks.Length)
      requires i < n < board.blocks.Length && first + n <= board.blocks.Length
      requires first == Slot(delivered, board.blocks.Length)
      requires fetched == if copied then delivered + i else delivered
      requires copied ==> fetched < |board.log| && fetched !in lost
      modifies this`fetched, this`lost, board, board.blocks
      ensures Sharing(fetched, delivered + board.blocks.Length) && old(board.log) <= board.log
      ensures fetched == old(fetched) + (if copied then 1 else 0)
      ensures copied ==> lost == old(lost)
      ensures !copied ==> lost == old(lost) + {delivered + i} || (lost == old(lost) && old(board.head) <= delivered + i)
    {
      hide Unread, Slot, TagsInOrder, TagBefore;
      board.Interfere(delivered + board.blocks.Length, fetched, lost);
      ghost var was := board.blocks[..];
      SlotInWindow(delivered, delivered + i, n, board.blocks.Length);
      if copied {
        ClearUnread(was, fetched, board.log, lost);
        fetched := fetched + 1;
      } else {
        ClearLoses(was, delivered, board.log, lost, delivered + i);
        lost := if delivered + i < |board.log| then lost + {delivered + i} else lost;
      }
      board.blocks[first + i] := board.blocks[first + i].(eom := false);
      assert board.blocks[..] == was[first + i := was[first + i].(eom := false)];
    }

    /** The messages taken are those in the cache up to the first block without its bit. */
    ghost predicate Marked(n: nat)
      requires n <= msgBlockData.Length
      reads this, board, msgBlockData
    {
      && delivered <= fetched <= delivered + n && fetched <= |board.log|
      && (forall j :: 0 <= j < fetched - delivered ==> msgBlockData[j] == Block(true, board.log[delivered + j]))
      && (fetched < delivered + n ==> !msgBlockData[fetched - delivered].eom)
    }

    /**
     Messages are lost only where the cache's blocks have their bits on, none if the first has not;
     if it has, the wanted message is, when it was among the `written` before the scan.
     */
    ghost predicate Loses(lostBefore: set<nat>, written: nat, n: nat)
      requires 0 < n <= msgBlockData.Length
      reads this, msgBlockData
    {
      && lostBefore <= lost
      && (forall k :: k in lost && k !in lostBefore ==>
            delivered <= k < delivered + n && msgBlockData[k - delivered].eom)
      && (!msgBlockData[0].eom ==> lost == lostBefore)
      && (msgBlockData[0].eom && delivered < written ==> delivered in lost)
    }

    /** Refills the cache from the wanted block on; a refused transfer leaves no valid cache. */
    method Refill(off: nat, dmaWorks: bool)
      requires Valid() && caching && fetched == delivered
      requires off == board.mode.Offset(Slot(delivered, board.blocks.Length))
      modifies this`dmaCopyIsValid, this`beginDpramOffset, this`endDpramOffset, this`start, this`length, this`fetched
      modifies this`lost, board, board.blocks, msgBlockData
      ensures Valid() && old(board.log) <= board.log
      ensures dmaCopyIsValid == dmaWorks
      ensures dmaWorks ==> start == delivered && lost == old(lost)
      ensures dmaWorks && delivered < old(board.head) && delivered !in lost ==> msgBlockData[0].eom
      ensures !dmaWorks ==> msgBlockData[..] == old(msgBlockData[..])
      ensures !dmaWorks ==> 0 < length <= CACHE_BLOCKS && Loses(old(lost), old(board.head), length)
    {
      hide Unread, Slot, TagsInOrder, TagBefore, WindowEnd;
      var first := Slot(next, board.blocks.Length);
      beginDpramOffset, endDpramOffset := off, WindowEnd(board.mode, off, maxBlocks);
      ghost var n := WindowIsWholeBlocks(board.mode, first, maxBlocks);
      var numBytesToRead := endDpramOffset - beginDpramOffset + 1;
      ghost var log := board.log;
      CopyAndClear(first, numBytesToRead / BLOCK_BYTES, dmaWorks);
      TagKept(log, board.log, delivered);
      start, length, dmaCopyIsValid := delivered, n, dmaWorks;
      if dmaWorks { MarkedIsWindow(); }
    }

    /** The transfer, if it is not refused, and the scan, which is made in any case. */
    method CopyAndClear(first: nat, n: nat, dmaWorks: bool)
      requires Sharing(delivered, delivered + board.blocks.Length)
      requires 0 < n <= CACHE_BLOCKS && n < board.blocks.Length && first + n <= board.blocks.Length
      requires first == Slot(delivered, board.blocks.Length)
      modifies this`fetched, this`lost, board, board.blocks, msgBlockData
      ensures Sharing(fetched, delivered + board.blocks.Length) && old(board.log) <= board.log
      ensures dmaWorks ==> lost == old(lost) && Marked(n)
      ensures dmaWorks && delivered < old(board.head) && delivered !in lost ==> msgBlockData[0].eom
      ensures !dmaWorks ==> fetched == delivered && Loses(old(lost), old(board.head), n)
      ensures !dmaWorks ==> msgBlockData[..] == old(msgBlockData[..])
    {
      hide Unread, Slot, TagsInOrder, TagBefore, Copied;
      if dmaWorks {
        CopyWindow(first, n);
      }
      ClearEoms(first, n, dmaWorks);
    }

    lemma MarkedIsWindow()
      requires board.Valid() && msgBlockData.Length == CACHE_BLOCKS && 0 < length <= maxBlocks <= CACHE_BLOCKS
      requires Marked(length) && start == delivered
      requires var first := Slot(start, board.blocks.Length);
        first + length <= board.blocks.Length && beginDpramOffset == board.mode.Offset(first)
      requires endDpramOffset == WindowEnd(board.mode, beginDpramOffset, maxBlocks)
      requires endDpramOffset + 1 == beginDpramOffset + length * BLOCK_BYTES
      ensures Window()
    {
      hide Slot, TagsInOrder, TagBefore, WindowEnd;
    }

    /** A refused read would scan an earlier window whose first block still has its end-of-message bit. */
    ghost predicate StaleScan(dmaWorks: bool)
      reads this, msgBlockData
    {
      caching && !dmaWorks && fetched == delivered && msgBlockData.Length > 0 && msgBlockData[0].eom
    }

    /** Finds the wanted block in the cache, or refills the cache from that block on. */
    method GetDmaMonBlockCopy(off: nat, dmaWorks: bool) returns (at: nat, valid: bool)
      requires Valid() && off == board.mode.Offset(Slot(delivered, board.blocks.Length)) && caching
      modifies this`dmaCopyIsValid, this`beginDpramOffset, this`endDpramOffset, this`start, this`length, this`fetched
      modifies this`lost, board, board.blocks, msgBlockData
      ensures Valid() && old(board.log) <= board.log
      ensures dmaWorks ==> valid
      ensures valid ==> dmaCopyIsValid && at == delivered - start < length
      ensures valid && delivered < old(board.head) && delivered !in lost ==> msgBlockData[at].eom
      ensures valid && msgBlockData[at].eom ==> delivered < fetched && msgBlockData[at].msg == board.log[delivered]
      ensures !valid ==> !dmaCopyIsValid
      ensures delivered < old(fetched) ==> valid && fetched == old(fetched)
      ensures delivered < old(fetched) || !dmaWorks ==> msgBlockData[..] == old(msgBlockData[..])
      ensures valid && delivered == old(fetched) ==> at == 0
      ensures old(lost) <= lost && (!old(StaleScan(dmaWorks)) ==> lost == old(lost))
      ensures old(StaleScan(dmaWorks)) && delivered < old(board.head) ==> delivered in lost
    {
      hide Unread, Slot, TagsInOrder, TagBefore, Copied, WindowEnd;
      if dmaCopyIsValid {
        HitIsRight();
        if beginDpramOffset <= off < endDpramOffset {
          at := (off - beginDpramOffset) / BLOCK_BYTES;
          assert at == delivered - start;
          if msgBlockData[at].eom {
            return at, true;
          }
        }
      }
      Refill(off, dmaWorks);
      at, valid := 0, dmaWorks;
    }

    /** The block is read directly, checked against a second look at its header, and marked read. */
    method ReadDirectly() returns (r: Outcome)
      requires Valid() && !dmaCopyIsValid
      modifies this`fetched, board, board.blocks
      ensures old(board.log) <= board.log
      ensures !r.Overrun?
      ensures r.NoMessage? ==> Valid() && fetched == delivered && (delivered < old(board.head) ==> delivered in lost)
      ensures r.Delivered? ==>
                && delivered < |board.log| && r.msg == board.log[delivered] && delivered !in lost
                && r.block == Slot(next, board.blocks.Length) && fetched == delivered + 1
                && Sharing(fetched, delivered + board.blocks.Length)
    {
      hide Unread, Slot, TagsInOrder, TagBefore, WindowEnd;
      ghost var log, limit := board.log, delivered + board.blocks.Length;
      var s := Slot(next, board.blocks.Length);
      board.Interfere(delivered + board.blocks.Length, delivered, lost);
      BlockOf(board.blocks[..], delivered, board.log, lost, delivered);
      TagKept(log, board.log, delivered);
      var copy1 := board.blocks[s];
      if !copy1.eom {
        return NoMessage;
      }
      board.Interfere(delivered + board.blocks.Length, delivered, lost);
      BlockOf(board.blocks[..], delivered, board.log, lost, delivered);
      var copy2 := board.blocks[s];
      if copy1.eom != copy2.eom || copy1.msg.status != copy2.msg.status || copy1.msg.timetag != copy2.msg.timetag {
        return Overrun;
      }
      board.Interfere(delivered + board.blocks.Length, delivered, lost);
      ghost var was := board.blocks[..];
      BlockOf(was, delivered, board.log, lost, delivered);
      ClearUnread(was, delivered, board.log, lost);
      board.blocks[s] := board.blocks[s].(eom := false, msg := board.blocks[s].msg.(status := copy1.msg.status));
      assert board.blocks[..] == was[s := was[s].(eom := false)];
      fetched := delivered + 1;
      r := Delivered(copy1.msg, s);
    }

    /** A message has been taken that is to be handed out next. */
    ghost predicate Taken()
      reads this, board, board.blocks, msgBlockData
    {
      && board.Valid() && msgBlockData.Length == CACHE_BLOCKS && msgBlockData != board.blocks
      && 0 < maxBlocks <= CACHE_BLOCKS
      && delivered < fetched <= board.head <= delivered + board.blocks.Length
      && Unread(board.blocks[..], fetched, board.log, lost)
      && Slot(next, board.blocks.Length) == Slot(delivered, board.blocks.Length)
      && lastmsgttag == TagBefore(board.log, delivered)
      && if dmaCopyIsValid then caching && Window() else fetched == delivered + 1
    }

    /** Takes the wanted message out of the cache or off the board. */
    method TakeMessage(dmaWorks: bool) returns (r: Outcome)
      requires Valid() && next == Slot(next, board.blocks.Length)
      modifies this`dmaCopyIsValid, this`beginDpramOffset, this`endDpramOffset, this`start, this`length, this`fetched
      modifies this`lost, board, board.blocks, msgBlockData
      ensures old(board.log) <= board.log && !r.Overrun?
      ensures r.Delivered? ==>
                && Taken() && r.msg == board.log[delivered] && r.block == next && delivered !in lost
      ensures r.NoMessage? ==> Valid() && fetched == delivered && (delivered < old(board.head) ==> delivered in lost)
      ensures old(lost) <= lost && (!old(StaleScan(dmaWorks)) ==> lost == old(lost))
      ensures old(StaleScan(dmaWorks)) && delivered < old(board.head) ==> delivered in lost
      ensures delivered < old(fetched) ==> fetched == old(fetched) && msgBlockData[..] == old(msgBlockData[..])
      ensures caching && dmaWorks && delivered == old(fetched) && r.Delivered? ==> msgBlockData[0].eom
    {
      hide Unread, Slot, TagsInOrder, TagBefore, WindowEnd, GoesBack;
      ghost var log := board.log;
      if caching {
        var at, valid := GetDmaMonBlockCopy(board.mode.Offset(next), dmaWorks);
        if valid {
          if !msgBlockData[at].eom {
            return NoMessage;
          }
          NotLost();
          return Delivered(msgBlockData[at].msg, next);
        }
      }
      ghost var now := board.log;
      r := ReadDirectly();
      TagKept(now, board.log, delivered);
    }

    /**
     The next monitored message.  With or without the cache the reader hands out log[0], log[1], ... ,
     each once and in order, and misses one that was there when it was called only if it is lost.  It
     loses messages by a refused multi-block read alone, and then just if the scan finds an old bit.
     */
    method GetNextMonMessage(dmaWorks: bool) returns (r: Outcome)
      requires Valid()
      modifies this, board, board.blocks, msgBlockData
      ensures Valid() && old(board.log) <= board.log
      ensures r.Delivered? ==>
                && old(delivered) < |board.log| && r.msg == board.log[old(delivered)]
                && r.block == Slot(old(delivered), board.blocks.Length)
                && delivered == old(delivered) + 1 && old(delivered) !in lost
      ensures !r.Delivered? ==> r == NoMessage && delivered == old(delivered)
      ensures old(delivered) < old(board.head) && old(delivered) !in lost ==> r.Delivered?
      // what is lost, and when
      ensures old(lost) <= lost && (!old(StaleScan(dmaWorks)) ==> lost == old(lost))
      ensures old(StaleScan(dmaWorks)) && old(delivered) < old(board.head) ==> old(delivered) in lost
      // the cache holds its blocks, bits and all, until it is refilled
      ensures old(delivered < fetched) ==> fetched == old(fetched) && msgBlockData[..] == old(msgBlockData[..])
      ensures old(caching && dmaWorks && delivered == fetched) && r.Delivered? ==> msgBlockData[0].eom
    {
      hide Unread, Slot, TagsInOrder, TagBefore, WindowEnd, GoesBack;
      next := Slot(next, board.blocks.Length);
      SlotOfSlot(delivered, board.blocks.Length);
      r := TakeMessage(dmaWorks);
      if !r.Delivered? {
        return;
      }
      TagOf(board.log, delivered);
      if GoesBack(lastmsgttag, r.msg.timetag) {
        return Overrun;
      }
      SlotAdvances(next, delivered, board.blocks.Length);
      lastmsgttag, next, delivered := r.msg.timetag, next + 1, delivered + 1;
      r := Delivered(r.msg, next - 1);
    }

    /** While something fetched is undelivered, the cache's first block has its bit on. */
    lemma FetchedIsOn()
      requires Valid() && delivered < fetched
      ensures msgBlockData[0].eom
    {
      hide Unread, Slot, TagsInOrder, TagBefore, WindowEnd;
      assert msgBlockData[0] == Block(true, board.log[start + 0]);
    }

    /** What has been fetched is not lost. */
    lemma NotLost()
      requires Valid()
      ensures forall k :: k in lost ==> fetched <= k < |board.log|
    {
    }
  }

  /**
   A run of calls, cached or direct, any of whose multi-block reads may be refused: what it hands out is
   the next stretch of what the board wrote, in order and without repetition, and without a gap.  It falls
   behind only by being called too few times, or for ever at the first message that is lost.
   */
  method ReadMany(monitor: Monitor, dmaWorks: seq<bool>) returns (got: seq<Message>)
    requires monitor.Valid()
    modifies monitor, monitor.board, monitor.board.blocks, monitor.msgBlockData
    ensures monitor.Valid() && old(monitor.board.log) <= monitor.board.log && old(monitor.lost) <= monitor.lost
    ensures old(monitor.delivered) <= monitor.delivered <= |monitor.board.log|
    ensures got == monitor.board.log[old(monitor.delivered)..monitor.delivered]
    ensures (forall k :: k in monitor.lost ==> old(monitor.board.head) <= k) ==>
              |got| >= Min(|dmaWorks|, old(monitor.board.head) - old(monitor.delivered))
    ensures forall k :: k in monitor.lost ==> monitor.delivered <= k
  {
    hide Unread, Slot, TagsInOrder, TagBefore, WindowEnd;
    got := [];
    for i := 0 to |dmaWorks|
      invariant monitor.Valid() && old(monitor.board.log) <= monitor.board.log && old(monitor.lost) <= monitor.lost
      invariant old(monitor.delivered) <= monitor.delivered <= |monitor.board.log|
      invariant got == monitor.board.log[old(monitor.delivered)..monitor.delivered]
      invariant (forall k :: k in monitor.lost ==> old(monitor.board.head) <= k) ==>
                  |got| >= Min(i, old(monitor.board.head) - old(monitor.delivered))
    {
      var r := monitor.GetNextMonMessage(dmaWorks[i]);
      if r.Delivered? {
        got := got + [r.msg];
      }
    }
    monitor.NotLost();
  }

  // ---- A refused multi-block read ----

  /** The next message comes in, if none is waiting. */
  method EnsureWaiting(monitor: Monitor)
    requires monitor.Valid()
    modifies monitor.board, monitor.board.blocks
    ensures monitor.Valid() && monitor.delivered < monitor.board.head
  {
    hide Unread, Slot, TagsInOrder, WindowEnd, GoesBack;
    if monitor.board.head == monitor.delivered {
      ghost var log := monitor.board.log;
      SameTagPasses(monitor.board.lastTag);
      monitor.board.Write(Message(0, monitor.board.lastTag, [], 0), monitor.fetched, monitor.lost);
      TagKept(log, monitor.board.log, monitor.delivered);
    }
  }

  lemma SameTagPasses(tag: nat)
    ensures !GoesBack(tag, tag)
  {
  }

  /**
   From any state in which nothing is lost, a message can be: one is read through the cache and its
   window is used up, another one comes in, and the next multi-block read is refused.  That call finds
   nothing, and neither does any after it, refused or not.
   */
  method RefusedReadLosesMessage(monitor: Monitor, after: seq<bool>) returns (got: seq<Message>)
    requires monitor.Valid() && monitor.caching && monitor.lost == {}
    modifies monitor, monitor.board, monitor.board.blocks, monitor.msgBlockData
    ensures monitor.Valid() && monitor.delivered in monitor.lost && monitor.delivered < |monitor.board.log|
    ensures got == []
  {
    hide Unread, Slot, TagsInOrder, TagBefore, WindowEnd, GoesBack;
    EnsureWaiting(monitor);
    if monitor.delivered == monitor.fetched {
      var _ := monitor.GetNextMonMessage(true);
    }
    if monitor.delivered < monitor.fetched { monitor.FetchedIsOn(); }
    while monitor.delivered < monitor.fetched
      invariant monitor.Valid() && monitor.caching && monitor.lost == {} && monitor.msgBlockData[0].eom
      decreases monitor.fetched - monitor.delivered
    {
      var _ := monitor.GetNextMonMessage(true);
    }
    EnsureWaiting(monitor);
    var _ := monitor.GetNextMonMessage(false);
    got := ReadMany(monitor, after);
  }
}
