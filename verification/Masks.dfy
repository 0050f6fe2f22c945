/** Power-of-two masks: the arithmetic both queues and their constructors rely on. */
module Masks {

  /** Bitwise conjunction of two unsigned words, bit by bit from the least significant one. */
  function And(x: nat, y: nat): nat {
    if x == 0 || y == 0 then 0 else 2 * And(x / 2, y / 2) + (x % 2) * (y % 2)
  }

  function Pow2(k: nat): (r: nat)
    ensures r >= 1
  {
    if k == 0 then 1 else 2 * Pow2(k - 1)
  }

  ghost predicate IsPow2(c: nat) {
    exists k: nat :: c == Pow2(k)
  }

  datatype Construction = Constructed | TooSmall | NotAPowerOfTwo

  /** The two checks of the queue constructors, in their order. */
  function CheckCapacity(capacity: nat): Construction {
    if capacity < 2 then TooSmall
    else if And(capacity, capacity - 1) != 0 then NotAPowerOfTwo
    else Constructed
  }

  /** A capacity the constructors let through, with the exponent that proves it. */
  ghost predicate ValidCapacity(c: nat) {
    c >= 2 && IsPow2(c)
  }

  lemma {:induction false} AndWithPredecessor(k: nat)
    ensures And(Pow2(k), Pow2(k) - 1) == 0
  {
    if k > 0 {
      AndWithPredecessor(k - 1);
      assert (Pow2(k) - 1) / 2 == Pow2(k - 1) - 1;
    }
  }

  lemma {:induction false} DisjointFromPredecessor(c: nat)
    requires c > 0 && And(c, c - 1) == 0
    ensures IsPow2(c)
  {
    if c == 1 {
      assert c == Pow2(0);
    } else {
      // An odd c > 1 shares its top bits with c - 1.
      if c % 2 == 1 {
        assert c / 2 == (c - 1) / 2;
        SelfConjunction(c / 2);
        assert false;
      }
      assert (c - 1) / 2 == c / 2 - 1;
      DisjointFromPredecessor(c / 2);
      var k: nat :| c / 2 == Pow2(k);
      assert c == Pow2(k + 1);
    }
  }

  lemma {:induction false} SelfConjunction(x: nat)
    ensures And(x, x) == x
  {
    if x > 0 {
      SelfConjunction(x / 2);
      var bit := x % 2;
      assert bit * bit == bit by {
        assert bit == 0 || bit == 1;
      }
      assert And(x, x) == 2 * And(x / 2, x / 2) + bit * bit;
      assert x == 2 * (x / 2) + bit;
    }
  }

  /** The constructors accept exactly the powers of two from 2 on. */
  lemma GuardAcceptsPowersOfTwo(capacity: nat)
    ensures CheckCapacity(capacity) == Constructed <==> ValidCapacity(capacity)
  {
    if capacity >= 2 {
      if And(capacity, capacity - 1) == 0 {
        DisjointFromPredecessor(capacity);
      }
      if IsPow2(capacity) {
        var k: nat :| capacity == Pow2(k);
        AndWithPredecessor(k);
      }
    }
  }

  lemma {:induction false} MaskKeepsRemainder(x: nat, k: nat)
    ensures And(x, Pow2(k) - 1) == x % Pow2(k)
  {
    if k == 0 {
    } else if x == 0 {
    } else {
      var half := Pow2(k - 1);
      assert (Pow2(k) - 1) / 2 == half - 1 && (Pow2(k) - 1) % 2 == 1;
      MaskKeepsRemainder(x / 2, k - 1);
      HalvedRemainder(x, half);
    }
  }

  lemma HalvedRemainder(x: nat, half: nat)
    requires half > 0
    ensures x % (2 * half) == 2 * ((x / 2) % half) + x % 2
  {
    var q := (x / 2) / half;
    assert x / 2 == q * half + (x / 2) % half;
    assert x == q * (2 * half) + (2 * ((x / 2) % half) + x % 2) by {
      assert 2 * (q * half) == q * (2 * half);
    }
    UniqueRemainder(x, q, 2 * half, 2 * ((x / 2) % half) + x % 2);
  }

  /** A non-zero number of laps covers at least one lap. */
  lemma WholeLaps(q: int, c: int)
    requires c >= 0
    ensures q >= 1 ==> q * c >= c
    ensures q <= -1 ==> q * c <= -c
  {
    if q >= 1 {
      assert (q - 1) * c >= 0;
    } else if q <= -1 {
      assert (-q - 1) * c >= 0;
    }
  }

  lemma UniqueRemainder(x: int, q: int, c: nat, r: nat)
    requires r < c && x == q * c + r
    ensures x % c == r && x / c == q
  {
    var q', r' := x / c, x % c;
    calc {
      (q - q') * c;
      q * c - q' * c;
      r' - r;
    }
    WholeLaps(q - q', c);
  }

  lemma RemainderAgain(x: nat, c: nat)
    requires c > 0
    ensures x % c <= x && x % c < c && (x % c) % c == x % c
  {
    assert x == (x / c) * c + x % c;
    WholeLaps(x / c, c);
    UniqueRemainder(x % c, 0, c, x % c);
  }

  /** Advancing an index with the mask is advancing it modulo the capacity. */
  lemma NextIndex(count: nat, capacity: nat)
    requires ValidCapacity(capacity)
    ensures And(count % capacity + 1, capacity - 1) == (count + 1) % capacity
  {
    var k: nat :| capacity == Pow2(k);
    MaskKeepsRemainder(count % capacity + 1, k);
    NextRemainder(count, capacity);
  }

  lemma NextRemainder(a: nat, c: nat)
    requires c > 0
    ensures (a % c + 1) % c == (a + 1) % c
  {
    var q, r := a / c, a % c;
    assert a == q * c + r;
    if r + 1 == c {
      assert (q + 1) * c == q * c + c;
      UniqueRemainder(a + 1, q + 1, c, 0);
      UniqueRemainder(r + 1, 1, c, 0);
    } else {
      UniqueRemainder(a + 1, q, c, r + 1);
      UniqueRemainder(r + 1, 0, c, r + 1);
    }
  }

  /** Two counters less than one lap apart use the same cell only when they are equal. */
  lemma SameCell(a: nat, b: nat, c: nat)
    requires c > 0 && a <= b < a + c && a % c == b % c
    ensures a == b
  {
    var qa, qb := a / c, b / c;
    calc {
      (qb - qa) * c;
      qb * c - qa * c;
      b - a;
    }
    WholeLaps(qb - qa, c);
  }

  lemma FullLap(a: nat, c: nat)
    requires c > 0
    ensures (a + c) % c == a % c
  {
    assert a == (a / c) * c + a % c;
    assert a + c == (a / c + 1) * c + a % c;
    UniqueRemainder(a + c, a / c + 1, c, a % c);
  }

  lemma LapDistance(t: nat, h: nat, c: nat)
    requires c > 0 && t <= h < t + c
    ensures (h % c - t % c) % c == h - t
  {
    var qh, qt := h / c, t / c;
    calc {
      h % c - t % c;
      h - qh * c - (t - qt * c);
      (qt - qh) * c + (h - t);
    }
    UniqueRemainder(h % c - t % c, qt - qh, c, h - t);
  }

  lemma OffsetCell(t: nat, i: nat, c: nat)
    requires c > 0
    ensures (t % c + i) % c == (t + i) % c
  {
    var q := (t + i) / c;
    assert t == (t / c) * c + t % c;
    assert t + i == q * c + (t + i) % c;
    calc {
      t % c + i;
      t - (t / c) * c + i;
      (q - t / c) * c + (t + i) % c;
    }
    UniqueRemainder(t % c + i, q - t / c, c, (t + i) % c);
  }

  // ---------- the size of the shared mapping ----------

  const WORD64: nat := 0x1_0000_0000_0000_0000
  const CELL_BYTES: nat := 4

  function U64(x: nat): nat { x % WORD64 }

  /** CalculateBufferSize, with the wrap-around of 64-bit size_t written out. */
  function MappingBytes(headerBytes: nat, capacity: nat, reportedLine: nat): nat {
    var line := if reportedLine == 0 then 64 else reportedLine;
    U64(U64(U64(headerBytes + U64(capacity * CELL_BYTES)) / line + 1) * line)
  }

  /** The first byte after cell i. */
  function CellEnd(headerBytes: nat, i: nat): nat {
    headerBytes + (i + 1) * CELL_BYTES
  }

  /** Every cell of the ring lies inside the mapping. */
  ghost predicate CellsFit(headerBytes: nat, capacity: nat, reportedLine: nat) {
    forall i: nat | i < capacity :: CellEnd(headerBytes, i) <= MappingBytes(headerBytes, capacity, reportedLine)
  }

  lemma RoundedUp(bytes: nat, line: nat)
    requires line > 0
    ensures bytes < (bytes / line + 1) * line <= bytes + line
    ensures bytes / line <= bytes
  {
    assert bytes == (bytes / line) * line + bytes % line;
    assert (bytes / line + 1) * line == (bytes / line) * line + line;
    QuotientAtMost(bytes / line, line);
  }

  lemma QuotientAtMost(q: nat, line: nat)
    requires line > 0
    ensures q <= q * line
  {
    assert q * line - q == q * (line - 1);
  }

  lemma {:induction false} Pow2Monotone(a: nat, b: nat)
    requires a <= b
    ensures Pow2(a) <= Pow2(b)
  {
    if a < b {
      Pow2Monotone(a, b - 1);
    }
  }

  lemma {:induction false} Pow2Sum(a: nat, b: nat)
    ensures Pow2(a + b) == Pow2(a) * Pow2(b)
  {
    if b > 0 {
      Pow2Sum(a, b - 1);
    }
  }

  lemma Pow2Divides(t: nat, m: nat)
    requires t <= m
    ensures Pow2(m) % Pow2(t) == 0
  {
    Pow2Sum(m - t, t);
    UniqueRemainder(Pow2(m), Pow2(m - t), Pow2(t), 0);
  }

  lemma Pow2Values()
    ensures Pow2(16) == 0x1_0000 && Pow2(32) == 0x1_0000_0000 && Pow2(61) == 0x2000_0000_0000_0000
    ensures Pow2(64) == WORD64
  {
    assert Pow2(8) == 0x100;
    Pow2Sum(8, 8);
    Pow2Sum(16, 16);
    Pow2Sum(32, 32);
    Pow2Sum(32, 16);
    Pow2Sum(48, 8);
    assert Pow2(5) == 32;
    Pow2Sum(56, 5);
  }

  lemma MappingFits(headerBytes: nat, capacity: nat, reportedLine: nat)
    requires capacity <= 0x2000_0000_0000_0000
    requires headerBytes <= 0x1_0000 && reportedLine <= 0x1_0000
    ensures CellsFit(headerBytes, capacity, reportedLine)
  {
    var line := if reportedLine == 0 then 64 else reportedLine;
    var bytes := headerBytes + capacity * CELL_BYTES;
    RoundedUp(bytes, line);
    var lines := bytes / line + 1;
    NoWrap(capacity * CELL_BYTES);
    NoWrap(bytes);
    NoWrap(lines);
    NoWrap(lines * line);
    assert MappingBytes(headerBytes, capacity, reportedLine) == lines * line;
    forall i: nat | i < capacity
      ensures CellEnd(headerBytes, i) <= bytes
    {
    }
  }

  /** Below the wrap the mapping is whole cache lines, more than the bytes needed and at most one line more. */
  lemma MappingIsRoundedUp(headerBytes: nat, capacity: nat, reportedLine: nat)
    requires var line := if reportedLine == 0 then 64 else reportedLine;
      headerBytes + capacity * CELL_BYTES + line < WORD64
    ensures var line := if reportedLine == 0 then 64 else reportedLine;
      var bytes := headerBytes + capacity * 4;
      && bytes < MappingBytes(headerBytes, capacity, reportedLine) <= bytes + line
      && MappingBytes(headerBytes, capacity, reportedLine) % line == 0
  {
    var line := if reportedLine == 0 then 64 else reportedLine;
    var bytes := headerBytes + capacity * CELL_BYTES;
    RoundedUp(bytes, line);
    var lines := bytes / line + 1;
    NoWrap(capacity * CELL_BYTES);
    NoWrap(bytes);
    QuotientAtMost(lines, line);
    NoWrap(lines);
    NoWrap(lines * line);
    assert MappingBytes(headerBytes, capacity, reportedLine) == lines * line;
    UniqueRemainder(lines * line, lines, line, 0);
  }

  lemma NoWrap(x: nat)
    requires x < WORD64
    ensures U64(x) == x
  {
  }

  lemma MappingWraps(headerBytes: nat, capacity: nat, reportedLine: nat)
    requires capacity >= 0x4000_0000_0000_0000 && (capacity * CELL_BYTES) % WORD64 == 0
    requires headerBytes <= 0x1_0000 && reportedLine <= 0x1_0000
    ensures !CellsFit(headerBytes, capacity, reportedLine)
  {
    var line := if reportedLine == 0 then 64 else reportedLine;
    RoundedUp(headerBytes, line);
    var lines := headerBytes / line + 1;
    NoWrap(headerBytes);
    NoWrap(lines);
    NoWrap(lines * line);
    assert MappingBytes(headerBytes, capacity, reportedLine) == lines * line;
    assert CellEnd(headerBytes, capacity - 1) > MappingBytes(headerBytes, capacity, reportedLine);
  }

  /** The mapping holds the whole ring exactly for the 64-bit capacities up to 2^61: from 2^62 on the byte
      count wraps to the header alone. */
  lemma MappingHoldsTheRing(headerBytes: nat, k: nat, reportedLine: nat)
    requires 1 <= k < 64
    requires headerBytes <= 0x1_0000 && reportedLine <= 0x1_0000
    ensures CellsFit(headerBytes, Pow2(k), reportedLine) <==> k <= 61
  {
    Pow2Values();
    if k <= 61 {
      Pow2Monotone(k, 61);
      MappingFits(headerBytes, Pow2(k), reportedLine);
    } else {
      Pow2Monotone(62, k);
      Pow2Sum(62, k - 62);
      assert Pow2(k) * CELL_BYTES == Pow2(k - 62) * WORD64;
      UniqueRemainder(Pow2(k) * CELL_BYTES, Pow2(k - 62), WORD64, 0);
      MappingWraps(headerBytes, Pow2(k), reportedLine);
    }
  }
}
