/**
 Bulk reads of the sequential monitor: the filter that throws out blocks overwritten during the
 copy, and the reader that rebuilds 32-bit message numbers from 16-bit counters.
 */
module MonitorBlock {
  import opened RingArithmetic

  const DATA_OVERWRITTEN := -1
  const COUNTERS := 0x10000
  const NUMBERS := 0x1_0000_0000

  /** What the filter looks at in a copied message block. */
  datatype Entry = Entry(counter: nat, status: nat)

  ghost predicate Fits(e: Entry) { e.counter < COUNTERS && e.status < COUNTERS }

  /** Not yet written over by a later lap, as far as its counter tells. */
  predicate Plausible(e: Entry, firstEntry: nat, maxMsgs: nat)
  {
    e.counter < (firstEntry + maxMsgs) % NUMBERS && e.status != 0
  }

  /** `b` carries the counter after `a`'s, modulo 65536, and is not being written. */
  ghost predicate Follows(a: Entry, b: Entry)
  {
    b.counter == (a.counter + 1) % COUNTERS && b.status != 0
  }

  /** The source's own test that `next` breaks the chain. */
  predicate Breaks(firstMsgCounter: nat, next: Entry)
  {
    || (firstMsgCounter != 0xffff && firstMsgCounter + 1 != next.counter)
    || (firstMsgCounter == 0xffff && next.counter != 0)
    || next.status == 0
  }

  /** entries[from..upTo) count up by one and none is marked as being written. */
  ghost predicate Unbroken(entries: seq<Entry>, from: nat, upTo: nat)
    requires from <= upTo <= |entries|
  {
    && (forall i :: from <= i < upTo ==> entries[i].status != 0)
    && (forall i :: from < i < upTo ==> Follows(entries[i - 1], entries[i]))
  }

  /**
   Keeps a stretch of the `msgsRead` blocks just copied: it starts at the first plausible block
   and counts up without a break.  When a break ends it early, the last block before the break is
   dropped as well.
   */
  method FilterCorrupt(buffer: array<Entry>, msgsRead: nat, firstEntry: nat, maxMsgs: nat, flag: int)
    returns (start: nat, nummsgs: nat, overwritten: int)
    requires 0 < msgsRead < buffer.Length
    requires forall i :: 0 <= i < buffer.Length ==> Fits(buffer[i])
    ensures start + nummsgs <= msgsRead
    ensures Unbroken(buffer[..], start, start + nummsgs)
    ensures forall i :: 0 <= i < start ==> !Plausible(buffer[i], firstEntry, maxMsgs)
    ensures start < msgsRead ==> Plausible(buffer[start], firstEntry, maxMsgs)
    ensures start + nummsgs < msgsRead ==>
              var last := start + nummsgs;
              && last + 1 < msgsRead && Unbroken(buffer[..], start, last + 1)
              && !Follows(buffer[last], buffer[last + 1])
    ensures overwritten == if start > 0 then DATA_OVERWRITTEN else flag
  {
    var p, msgnum := 0, 0;
    while msgnum < msgsRead && !Plausible(buffer[p], firstEntry, maxMsgs)
      invariant p == msgnum <= msgsRead
      invariant forall i :: 0 <= i < msgnum ==> !Plausible(buffer[i], firstEntry, maxMsgs)
    {
      p, msgnum := p + 1, msgnum + 1;
    }
    nummsgs, start := msgsRead - msgnum, msgnum;
    overwritten := if msgnum > 0 then DATA_OVERWRITTEN else flag;

    var firstMsgCounter := buffer[p].counter;
    p := p + 1;
    var goodMsgs := 0;
    while msgnum < msgsRead - 1
      invariant start <= msgnum <= msgsRead && p == msgnum + 1 && goodMsgs == msgnum - start
      invariant msgnum < msgsRead ==> firstMsgCounter == buffer[msgnum].counter
      invariant start < msgsRead ==> msgnum < msgsRead && Unbroken(buffer[..], start, msgnum + 1)
      invariant start == msgsRead ==> msgnum == msgsRead
    {
      if Breaks(firstMsgCounter, buffer[p]) {
        nummsgs := goodMsgs;
        break;
      }
      assert Follows(buffer[msgnum], buffer[p]);
      goodMsgs := goodMsgs + 1;
      firstMsgCounter := buffer[p].counter;
      p, msgnum := p + 1, msgnum + 1;
    }
  }

  /** Multiples of a ring length that agree modulo 65536 are at least 2048 laps apart. */
  lemma LapsApart(d: int, q: int, blocks: nat)
    requires blocks in {200, 400, 800} && At(d, blocks) == q * COUNTERS && -2048 < d < 2048
    ensures d == 0
  {
    var r := if blocks == 200 then 4 * q else if blocks == 400 then 2 * q else q;
    assert 25 * d == 2048 * r;
    assert d == 2048 * (r * 1065 - 13 * d);
  }

  /** Block i of a copy holds the message that belongs there, or one some laps younger. */
  ghost predicate FromRing(entries: seq<Entry>, first: nat, blocks: nat, laps: seq<nat>)
  {
    && |laps| == |entries|
    && forall i :: 0 <= i < |entries| ==>
         laps[i] < 2048 && entries[i].counter == (first + i + At(laps[i], blocks)) % COUNTERS
  }

  /**
   What the first loop says of a whole block: one of the expected lap passes, one lapped just if it has a number
   past 65535.
   */
  lemma PlausibleWhen(e: Entry, first: nat, blocks: nat, i: nat, lapped: bool)
    requires blocks in {200, 400, 800} && first + blocks < NUMBERS && i < blocks && e.status != 0
    requires e.counter == (first + i + if lapped then blocks else 0) % COUNTERS
    ensures Plausible(e, first, blocks) <==> !lapped || COUNTERS <= first + i + blocks
  {
  }

  /** The board has written over the first `lapped` of the blocks before they were copied. */
  ghost predicate LappedPrefix(entries: seq<Entry>, first: nat, blocks: nat, lapped: nat)
  {
    && |entries| <= blocks && lapped <= |entries|
    && forall i :: 0 <= i < |entries| ==>
         entries[i].counter == (first + i + if i < lapped then blocks else 0) % COUNTERS
  }

  /**
   The 16-bit counter is held against a 32-bit bound.  What is kept begins with an expected message just
   if every lapped block that is whole has a number below 65536; otherwise younger messages are handed
   out for it, with the flag as it was if the very first block is one of those.
   */
  lemma KeptIsExpectedWhen(entries: seq<Entry>, first: nat, blocks: nat, lapped: nat, start: nat)
    requires blocks in {200, 400, 800} && first + blocks < NUMBERS && LappedPrefix(entries, first, blocks, lapped)
    requires start < |entries| && Plausible(entries[start], first, blocks)
    requires forall i :: 0 <= i < start ==> !Plausible(entries[i], first, blocks)
    ensures start >= lapped <==>
      forall i :: 0 <= i < lapped && entries[i].status != 0 ==> first + i + blocks < COUNTERS
    ensures COUNTERS <= first + blocks && entries[0].status != 0 ==> start == 0
  {
    hide Plausible;
    forall i | 0 <= i < |entries| && entries[i].status != 0
      ensures Plausible(entries[i], first, blocks) <==> i >= lapped || COUNTERS <= first + i + blocks
    {
      PlausibleWhen(entries[i], first, blocks, i, i < lapped);
    }
    ZeroStatus(entries[start], first, blocks);
  }

  lemma ZeroStatus(e: Entry, first: nat, blocks: nat)
    requires Plausible(e, first, blocks)
    ensures e.status != 0
  {
  }

  /** 70000 messages were read before; the first block, lapped, passes for message 70000 and is message 70200. */
  lemma LappedBlockPasses()
    ensures var entries := [Entry(70200 % COUNTERS, 1), Entry(70001 % COUNTERS, 1)];
      LappedPrefix(entries, 70000, 200, 1) && Plausible(entries[0], 70000, 200) && 70200 % COUNTERS != 70000 % COUNTERS
  {
  }

  /**
   So counters that count up really are successive messages: if every copied block is some whole
   message of the ring, the blocks of an unbroken stretch all come from the same lap.
   */
  lemma {:induction false} UnbrokenIsSuccessive(entries: seq<Entry>, first: nat, blocks: nat, laps: seq<nat>,
                                            from: nat, upTo: nat, i: nat)
    requires blocks in {200, 400, 800} && FromRing(entries, first, blocks, laps)
    requires from <= i < upTo <= |entries| && Unbroken(entries, from, upTo)
    ensures laps[i] == laps[from]
    ensures first + i + At(laps[i], blocks) == first + from + At(laps[from], blocks) + (i - from)
    decreases i
  {
    hide At;
    if i > from {
      UnbrokenIsSuccessive(entries, first, blocks, laps, from, upTo, i - 1);
      assert Follows(entries[i - 1], entries[i]);
      var d := laps[i] as int - laps[i - 1] as int;
      AtAdds(laps[i - 1], d, blocks);
      var q := SuccessorCounter(first + i - 1 + At(laps[i - 1], blocks), first + i + At(laps[i], blocks));
      LapsApart(d, q, blocks);
    }
  }

  lemma SuccessorCounter(a: int, b: int) returns (q: int)
    requires b % COUNTERS == (a % COUNTERS + 1) % COUNTERS
    ensures b - a - 1 == q * COUNTERS
  {
    q := (b - a - 1) / COUNTERS;
  }

  // ---- Message numbers from counters ----

  /** The high half of a message number. */
  function High(t: nat): nat { t / COUNTERS % COUNTERS }

  /** The count the source records after a refill whose last message carries `counter`. */
  function Rebuild(counter: nat, prevCounter: nat, hiMsgCount: nat, fwHigh: nat): nat
  {
    ((if counter < prevCounter then fwHigh else hiMsgCount) * COUNTERS + counter + 1) % NUMBERS
  }

  lemma NumberFromHalves(t: nat)
    ensures High(t) * COUNTERS + t % COUNTERS == t % NUMBERS
  {
    var q := t / COUNTERS;
    assert t == q / COUNTERS * NUMBERS + (q % COUNTERS * COUNTERS + t % COUNTERS);
    QuotientIsUnique(t, q / COUNTERS, NUMBERS, q % COUNTERS * COUNTERS + t % COUNTERS);
  }

  lemma Successor(x: nat, t: nat)
    requires x < NUMBERS
    ensures (x + 1) % NUMBERS == (t + 1) % NUMBERS <==> x == t % NUMBERS
  {
  }

  /**
   After a refill ending with message t, the previous one having ended with message p, the record
   is t + 1 exactly if the counter is seen to have wrapped or the high half is still the old one.
   */
  lemma RebuildIsRightWhen(p: nat, t: nat)
    ensures Rebuild(t % COUNTERS, p % COUNTERS, High(p), High(t)) == (t + 1) % NUMBERS <==>
            t % COUNTERS < p % COUNTERS || High(t) == High(p)
  {
    NumberFromHalves(t);
    var hi := if t % COUNTERS < p % COUNTERS then High(t) else High(p);
    Successor(hi * COUNTERS + t % COUNTERS, t);
  }

  /** Less than 65536 messages on, a counter has wrapped exactly if it is smaller than before. */
  lemma WrapIsSeen(p: nat, t: nat)
    requires p <= t < p + COUNTERS
    ensures t % COUNTERS < p % COUNTERS <==> t / COUNTERS == p / COUNTERS + 1
    ensures t % COUNTERS >= p % COUNTERS <==> t / COUNTERS == p / COUNTERS
  {
  }

  /** Exactly 65536 messages on, the record stands still: the bound is sharp. */
  lemma FullWrapGoesUnseen(p: nat)
    ensures Rebuild((p + COUNTERS) % COUNTERS, p % COUNTERS, High(p), High(p + COUNTERS))
         == (p + 1) % NUMBERS != (p + COUNTERS + 1) % NUMBERS
  {
    SameCounter(p);
    hide High;
    RebuildIsRightWhenEqual(p);
    NumbersDiffer(p + 1);
  }

  lemma SameCounter(p: nat)
    ensures (p + COUNTERS) % COUNTERS == p % COUNTERS
  {
  }

  lemma RebuildIsRightWhenEqual(p: nat)
    ensures (High(p) * COUNTERS + p % COUNTERS + 1) % NUMBERS == (p + 1) % NUMBERS
  {
    NumberFromHalves(p);
    Successor(p % NUMBERS, p);
  }

  lemma NumbersDiffer(n: nat)
    ensures n % NUMBERS != (n + COUNTERS) % NUMBERS
  {
    var q, r := n / NUMBERS, n % NUMBERS;
    if r + COUNTERS < NUMBERS {
      QuotientIsUnique(n + COUNTERS, q, NUMBERS, r + COUNTERS);
    } else {
      QuotientIsUnique(n + COUNTERS, q + 1, NUMBERS, r + COUNTERS - NUMBERS);
    }
  }

  /** When message `given` is the first past a wrap, the record already carries its high half. */
  lemma RecordCarriesHigh(before: nat, given: nat, lastRead: nat)
    requires before <= given <= lastRead < before + COUNTERS && given % COUNTERS < before % COUNTERS
    ensures (lastRead + 1) % NUMBERS / COUNTERS == High(given)
  {
    WrapIsSeen(before, given);
    assert (lastRead + 1) / COUNTERS == given / COUNTERS;
    NumberFromHalves(lastRead + 1);
    QuotientIsUnique((lastRead + 1) % NUMBERS, High(lastRead + 1), COUNTERS, (lastRead + 1) % COUNTERS);
  }

  /** `local` are the counters of the |local| messages up to and including lastRead. */
  ghost predicate Counts(local: seq<nat>, lastRead: nat)
  {
    && |local| <= lastRead + 1
    && forall i :: 0 <= i < |local| ==> local[i] == (lastRead + 1 - |local| + i) % COUNTERS
  }

  lemma CountsTail(local: seq<nat>, lastRead: nat)
    requires Counts(local, lastRead) && local != []
    ensures Counts(local[1..], lastRead) && local[0] == (lastRead + 1 - |local|) % COUNTERS
  {
  }

  lemma Bounds(local: seq<nat>, lastRead: nat)
    requires Counts(local, lastRead)
    ensures |local| <= lastRead + 1
  {
  }

  lemma SameHigh(before: nat, given: nat)
    requires before <= given < before + COUNTERS && given % COUNTERS >= before % COUNTERS
    ensures High(given) == High(before)
  {
    WrapIsSeen(before, given);
  }

  datatype Reply = Message(counter: nat, block: nat) | NoMessage

  /** The reader's counters; `local` are the counters of the messages still in the local buffer. */
  class SequenceReader {
    const lastblock: nat
    var local: seq<nat>
    var lastCountRead: nat
    var prevCounterInBuffer: nat
    var prevCounterInMsg: nat
    var hiMsgCount: nat
    // true numbers: last message of the last refill, last message handed out
    ghost var lastRead: nat
    ghost var lastGiven: nat
    ghost var started: bool

    /** The local buffer holds the counters of the messages after the last one handed out. */
    ghost predicate Valid()
      reads this
    {
      && 0 < lastblock
      && Counts(local, lastRead)
      && (if local == [] then lastGiven == lastRead else lastGiven <= lastRead + 1 - |local|)
      && lastRead < lastGiven + COUNTERS
      && prevCounterInBuffer == lastRead % COUNTERS
      && prevCounterInMsg == lastGiven % COUNTERS && hiMsgCount == High(lastGiven)
      && lastCountRead == (if started then lastRead + 1 else 0) % NUMBERS
      && (!started ==> lastRead == 0 && local == [])
    }

    constructor (blocks: nat)
      requires 0 < blocks
      ensures Valid() && lastblock == blocks && !started && local == []
    {
      lastblock, local := blocks, [];
      lastCountRead, prevCounterInBuffer, prevCounterInMsg, hiMsgCount := 0, 0, 0, 0;
      lastRead, lastGiven, started := 0, 0, false;
    }

    /** A bulk read brought messages up to `last`, fewer than 65536 after the previous one ended. */
    ghost predicate MayBring(block: seq<nat>, last: nat, fwHigh: nat)
      reads this
    {
      block != [] ==>
        && Counts(block, last) && last < lastRead + COUNTERS && fwHigh == High(last)
        && (started ==> lastRead + |block| <= last)
    }

    method Refill(block: seq<nat>, fwHigh: nat, ghost last: nat)
      requires Valid() && local == [] && block != [] && MayBring(block, last, fwHigh)
      modifies this`local, this`lastCountRead, this`prevCounterInBuffer, this`lastRead, this`started
      ensures Valid() && started && local == block && lastRead == last
      ensures lastCountRead == (last + 1) % NUMBERS
    {
      local := block;
      var counter := local[|local| - 1];
      WrapIsSeen(lastRead, last);
      RebuildIsRightWhen(lastRead, last);
      if counter < prevCounterInBuffer {
        lastCountRead := (counter + fwHigh * COUNTERS + 1) % NUMBERS;
      } else {
        lastCountRead := (counter + hiMsgCount * COUNTERS + 1) % NUMBERS;
      }
      prevCounterInBuffer := counter;
      lastRead, started := last, true;
    }

    /**
     The next message, refilling the local buffer with `block` when it has run dry.  `fwHigh` is
     the high half of the board's own counter.  Over any number of wraps the record stays one past
     the last message read, and the reply names the block of the true message number.
     */
    method GetNextMessage(block: seq<nat>, fwHigh: nat, ghost last: nat) returns (r: Reply)
      requires Valid() && (local == [] ==> MayBring(block, last, fwHigh))
      modifies this
      ensures Valid()
      ensures r.NoMessage? <==> old(local) == [] && block == []
      ensures r.NoMessage? ==> lastGiven == old(lastGiven) && lastRead == old(lastRead)
      ensures r.Message? ==>
                && lastRead == (if old(local) == [] then last else old(lastRead))
                && lastGiven == lastRead + 1 - |if old(local) == [] then block else old(local)|
                && r.counter == lastGiven % COUNTERS
                && r.block == lastGiven % NUMBERS % lastblock
                && lastCountRead == (lastRead + 1) % NUMBERS
    {
      hide Counts, High;
      if local == [] {
        if block == [] {
          return NoMessage;
        }
        Refill(block, fwHigh, last);
      }
      r := TakeFirst();
    }

    /** The first message of the local buffer. */
    method TakeFirst() returns (r: Reply)
      requires Valid() && local != []
      modifies this`local, this`prevCounterInMsg, this`hiMsgCount, this`lastGiven
      ensures Valid() && r.Message?
      ensures lastGiven == lastRead + 1 - |old(local)| && r.counter == lastGiven % COUNTERS
      ensures r.block == lastGiven % NUMBERS % lastblock && lastCountRead == (lastRead + 1) % NUMBERS
    {
      hide Counts, High;
      CountsTail(local, lastRead);
      Bounds(local, lastRead);
      var counter := local[0];
      ghost var given := lastRead + 1 - |local|;
      if counter < prevCounterInMsg {
        RecordCarriesHigh(lastGiven, given, lastRead);
        hiMsgCount := lastCountRead / COUNTERS;
      } else {
        SameHigh(lastGiven, given);
      }
      local := local[1..];
      prevCounterInMsg := counter;
      lastGiven := given;
      NumberFromHalves(given);
      r := Message(counter, (counter + hiMsgCount * COUNTERS) % lastblock);
    }
  }
}
