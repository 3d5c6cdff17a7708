/**
 The board side of the RT message stack: a ring of fixed-size entries in dual-port RAM
 which the firmware keeps appending to while the host reads.  Message m goes to slot
 m mod entries.  `log` is everything the board ever wrote, as one stream of bytes.
 */
module StackBoard {
  import opened Common
  import opened RingArithmetic

  /** The ring holds the last lap of the stream. */
  ghost predicate Mirrors(ram: seq<byte>, start: nat, size: nat, log: seq<byte>)
    requires 0 < size && start + size <= |ram|
  {
    forall k :: 0 <= k < |log| <= k + size ==> ram[start + Position(k, size)] == log[k]
  }

  /** One entry written to its slot: the ring now holds the last lap of the longer stream. */
  lemma AppendMirrors(ram: seq<byte>, ram': seq<byte>, start: nat, m: nat, e: nat, n: nat,
                      log: seq<byte>, entry: seq<byte>)
    requires 0 < e && 0 < n && 0 < At(n, e) && start + At(n, e) <= |ram| == |ram'|
    requires |log| == At(m, e) && |entry| == e
    requires Mirrors(ram, start, At(n, e), log)
    requires 0 <= At(Slot(m, n), e) <= At(n, e) - e
    requires forall a :: 0 <= a < |ram| ==>
               ram'[a] == if start + At(Slot(m, n), e) <= a < start + At(Slot(m, n), e) + e
                          then entry[a - start - At(Slot(m, n), e)] else ram[a]
    ensures Mirrors(ram', start, At(n, e), log + entry)
  {
    hide At, Slot, Position;
    var longer, size, slot := log + entry, At(n, e), At(Slot(m, n), e);
    forall k | 0 <= k < |longer| <= k + size
      ensures ram'[start + Position(k, size)] == longer[k]
    {
      if k >= |log| {
        SlotPosition(m, k - |log|, e, n);
      } else {
        var j := Position(k, size) - slot;
        if 0 <= j < e {
          SlotPosition(m, j, e, n);
          PositionsDiffer(k, |log| + j, size);
        }
        assert ram'[start + Position(k, size)] == ram[start + Position(k, size)];
      }
    }
  }

  class Board {
    const dpram: array<byte>
    const ringStart: nat
    const entrySize: nat
    const entries: nat
    const ringSize: nat
    var count: nat
    ghost var log: seq<byte>

    ghost predicate Valid()
      reads this, dpram
    {
      && 0 < entrySize && 0 < entries && 0 < ringSize == At(entries, entrySize)
      && ringStart + ringSize <= dpram.Length
      && |log| == At(count, entrySize)
      && Mirrors(dpram[..], ringStart, ringSize, log)
    }

    constructor (ram: array<byte>, start: nat, size: nat, n: nat)
      requires 0 < size && 0 < n && 0 < At(n, size) && start + At(n, size) <= ram.Length
      ensures Valid() && count == 0 && log == []
      ensures dpram == ram && ringStart == start && entrySize == size && entries == n
    {
      dpram, ringStart, entrySize, entries, ringSize := ram, start, size, n, At(n, size);
      count, log := 0, [];
    }

    /** The board writes one whole entry and bumps its counter, as one step. */
    method Append(entry: seq<byte>)
      requires Valid() && |entry| == entrySize
      modifies this, dpram
      ensures Valid()
      ensures log == old(log) + entry && count == old(count) + 1
      ensures forall a :: 0 <= a < dpram.Length && !(ringStart <= a < ringStart + ringSize) ==>
                dpram[a] == old(dpram[a])
    {
      hide At, Slot, Mirrors;
      SlotPosition(count, 0, entrySize, entries);
      var at := ringStart + At(Slot(count, entries), entrySize);
      ghost var was := dpram[..];
      forall j | 0 <= j < entrySize {
        dpram[at + j] := entry[j];
      }
      AppendMirrors(was, dpram[..], ringStart, count, entrySize, entries, log, entry);
      AtAdds(count, 1, entrySize);
      AtOne(entrySize);
      count, log := count + 1, log + entry;
    }

    /** Between any two host accesses the board may append any number of arbitrary entries. */
    method Interfere()
      requires Valid()
      modifies this, dpram
      ensures Valid() && old(log) <= log && old(count) <= count
      ensures forall a :: 0 <= a < dpram.Length && !(ringStart <= a < ringStart + ringSize) ==>
                dpram[a] == old(dpram[a])
    {
      var steps: nat := *;
      while steps > 0
        invariant Valid() && old(log) <= log && old(count) <= count
        invariant forall a :: 0 <= a < dpram.Length && !(ringStart <= a < ringStart + ringSize) ==>
                    dpram[a] == old(dpram[a])
      {
        var e := new byte[entrySize];
        Append(e[..]);
        steps := steps - 1;
      }
    }
  }
}
