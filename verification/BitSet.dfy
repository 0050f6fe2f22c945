/** The 64-bit set of valid clients: setBit and getBit, bit by bit, and the set they stand for. */
module BitSet {
  import opened Masks

  /** Bitwise disjunction of two unsigned words. */
  function Or(x: nat, y: nat): nat
    decreases x + y
  {
    if x == 0 then y else if y == 0 then x
    else 2 * Or(x / 2, y / 2) + (if x % 2 == 1 || y % 2 == 1 then 1 else 0)
  }

  /** x with the bits of y cleared. */
  function AndNot(x: nat, y: nat): nat {
    if x == 0 || y == 0 then x else 2 * AndNot(x / 2, y / 2) + (if x % 2 == 1 && y % 2 == 0 then 1 else 0)
  }

  function SetBit(number: nat, position: nat, value: bool): nat {
    if value then Or(number, Pow2(position)) else AndNot(number, Pow2(position))
  }

  predicate GetBit(number: nat, position: nat) {
    And(number, Pow2(position)) != 0
  }

  /** The positions whose bit is set, among the first `width`. */
  function Bits(number: nat, width: nat): set<nat> {
    set i: nat | i < width && GetBit(number, i)
  }

  lemma {:induction false} Halved(number: nat, position: nat)
    ensures GetBit(number, position) <==> if position == 0 then number % 2 == 1 else GetBit(number / 2, position - 1)
  {
    if position == 0 {
      assert Pow2(0) == 1 && And(number / 2, 0) == 0;
    } else {
      assert Pow2(position) / 2 == Pow2(position - 1) && Pow2(position) % 2 == 0;
    }
  }

  lemma {:induction false} OrReads(x: nat, y: nat, q: nat)
    ensures GetBit(Or(x, y), q) <==> GetBit(x, q) || GetBit(y, q)
    decreases q
  {
    Halved(Or(x, y), q);
    Halved(x, q);
    Halved(y, q);
    if x != 0 && y != 0 && q > 0 {
      OrReads(x / 2, y / 2, q - 1);
    }
    ZeroReads(q);
  }

  lemma {:induction false} AndNotReads(x: nat, y: nat, q: nat)
    ensures GetBit(AndNot(x, y), q) <==> GetBit(x, q) && !GetBit(y, q)
    decreases q
  {
    Halved(AndNot(x, y), q);
    Halved(x, q);
    Halved(y, q);
    if x != 0 && y != 0 && q > 0 {
      AndNotReads(x / 2, y / 2, q - 1);
    }
    ZeroReads(q);
  }

  lemma ZeroReads(q: nat)
    ensures !GetBit(0, q)
  {
  }

  lemma {:induction false} SingleBit(position: nat, q: nat)
    ensures GetBit(Pow2(position), q) <==> q == position
    decreases q
  {
    Halved(Pow2(position), q);
    if q > 0 {
      if position > 0 {
        SingleBit(position - 1, q - 1);
      } else {
        ZeroReads(q - 1);
      }
    }
  }

  /** setBit changes the bit it is asked to change and no other. */
  lemma SetBitReads(number: nat, position: nat, value: bool, q: nat)
    ensures GetBit(SetBit(number, position, value), q) <==> if q == position then value else GetBit(number, q)
  {
    SingleBit(position, q);
    OrReads(number, Pow2(position), q);
    AndNotReads(number, Pow2(position), q);
  }

  /** On the set, setBit adds or removes one element. */
  lemma SetBitIsSetUpdate(number: nat, position: nat, value: bool, width: nat)
    requires position < width
    ensures Bits(SetBit(number, position, value), width)
      == if value then Bits(number, width) + {position} else Bits(number, width) - {position}
  {
    forall q: nat
      ensures GetBit(SetBit(number, position, value), q) <==> if q == position then value else GetBit(number, q)
    {
      SetBitReads(number, position, value, q);
    }
  }
}
