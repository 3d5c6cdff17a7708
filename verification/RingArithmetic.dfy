/** Positions in a ring of equal entries: facts about remainders that the ring readers share. */
module RingArithmetic {

  /** Byte offset of entry m in a run of entries of e bytes. */
  function At(m: int, e: int): int { m * e }

  /** The slot that entry m of the stream goes to. */
  function Slot(m: nat, n: nat): (slot: nat)
    requires 0 < n
    ensures slot < n
  {
    m % n
  }

  /** Where byte k of the stream sits relative to the start of a ring of `size` bytes. */
  function Position(k: nat, size: nat): (p: nat)
    requires 0 < size
    ensures p < size
  {
    k % size
  }

  lemma AtAdds(a: int, b: int, e: int)
    ensures At(a + b, e) == At(a, e) + At(b, e)
  {
  }

  lemma AtIsNatural(a: int, e: int)
    requires 0 <= a && 0 <= e
    ensures 0 <= At(a, e)
  {
  }

  lemma AtGrows(a: int, b: int, e: int)
    requires 0 <= e && a <= b
    ensures At(a, e) <= At(b, e)
    ensures a < b ==> At(a, e) + e <= At(b, e)
  {
    hide At;
    if a < b {
      AtAdds(a, 1, e);
      AtOne(e);
      AtAdds(a + 1, b - a - 1, e);
      AtIsNatural(b - a - 1, e);
    }
  }

  lemma AtOne(e: int)
    ensures At(1, e) == e
  {
  }

  lemma AtZero(e: int)
    ensures At(0, e) == 0
  {
  }

  lemma QuotientIsUnique(x: int, q: int, s: int, r: int)
    requires 0 <= r < s
    requires x == q * s + r
    ensures x / s == q && x % s == r
  {
    var d := x / s - q;
    assert x == x / s * s + x % s;
    assert d * s == r - x % s;
    if d >= 1 {
      AtGrows(1, d, s);
    } else if d <= -1 {
      AtGrows(d, -1, s);
    }
  }

  /** Moving forward inside one lap moves the ring position by the same amount. */
  lemma PositionShifts(k: nat, i: nat, s: nat)
    requires s > 0 && Position(k, s) + i < s
    ensures Position(k + i, s) == Position(k, s) + i
  {
    QuotientIsUnique(k + i, k / s, s, k % s + i);
  }

  /** Two stream positions less than a lap apart never share a ring position. */
  lemma PositionsDiffer(a: nat, b: nat, s: nat)
    requires s > 0 && a < b < a + s
    ensures Position(a, s) != Position(b, s)
  {
    var d := b / s - a / s;
    assert b - a == d * s + (b % s - a % s);
    if d >= 1 {
      AtGrows(1, d, s);
    } else if d <= -1 {
      AtGrows(d, -1, s);
    }
  }

  /** Byte j of message m lies in the message's slot, at the same offset inside the slot. */
  lemma SlotPosition(m: nat, j: nat, e: nat, n: nat)
    requires 0 < n && j < e
    ensures 0 <= At(m, e) && 0 < At(n, e)
    ensures 0 <= At(Slot(m, n), e) && At(Slot(m, n), e) + e <= At(n, e)
    ensures Position(At(m, e) + j, At(n, e)) == At(Slot(m, n), e) + j
  {
    var q, r := m / n, Slot(m, n);
    assert m == At(q, n) + r;
    hide At, Slot, Position;
    AtGrows(0, m, e);
    AtGrows(0, r, e);
    AtGrows(r, n, e);
    AtAdds(At(q, n), r, e);
    AtAssociates(q, n, e);
    RemainderAt(At(m, e) + j, q, At(n, e), At(r, e) + j);
    PositionIs(At(m, e) + j, At(n, e));
  }

  lemma PositionIs(k: nat, size: nat)
    requires 0 < size
    ensures Position(k, size) == k % size
  {
  }

  lemma RemainderAt(x: int, q: int, s: int, r: int)
    requires 0 <= r < s && x == At(q, s) + r
    ensures x % s == r
  {
    QuotientIsUnique(x, q, s, r);
  }

  lemma AtAssociates(q: int, n: int, e: int)
    ensures At(At(q, n), e) == At(q, At(n, e))
  {
  }

  lemma OneLapBack(count: nat, n: nat)
    requires 0 < n <= count
    ensures Slot(count - n, n) == Slot(count, n)
  {
    QuotientIsUnique(count - n, count / n - 1, n, count % n);
  }

  /** After the last slot the ring starts again. */
  lemma LapEnds(first: nat, e: nat, n: nat)
    requires 0 < e && 0 < n
    ensures 0 <= At(first, e) && 0 < At(n, e) && 0 <= At(n - Slot(first, n), e)
    ensures At(n, e) - At(Slot(first, n), e) == At(n - Slot(first, n), e)
    ensures Position(At(first, e) + At(n - Slot(first, n), e), At(n, e)) == 0
  {
    var room := n - first % n;
    SlotPosition(first, 0, e, n);
    AtGrows(0, room, e);
    assert first * e + room * e == (first / n + 1) * (n * e) by {
      assert first == first / n * n + first % n;
      assert first * e == first / n * n * e + first % n * e;
    }
    QuotientIsUnique(first * e + room * e, first / n + 1, n * e, 0);
  }
}
