/** The `u16` bitmap in which the event scheduler records the priority levels in use. */
module Bitmap {

  const WIDTH: nat := 11

  /** The mask `1 << i`. */
  function Bit(i: nat): (mask: bv16)
    requires i < WIDTH
  {
    1 as bv16 << i
  }

  predicate Has(bits: bv16, i: nat)
    requires i < WIDTH
  {
    bits & Bit(i) != 0
  }

  /** `bits |= 1 << i` */
  function With(bits: bv16, i: nat): bv16
    requires i < WIDTH
  {
    bits | Bit(i)
  }

  /** The masks written out, so that two of them can be compared as literals. */
  function Mask(i: nat): bv16
    requires i < WIDTH
  {
    if i == 0 then 1 else if i == 1 then 2 else if i == 2 then 4 else if i == 3 then 8
    else if i == 4 then 16 else if i == 5 then 32 else if i == 6 then 64 else if i == 7 then 128
    else if i == 8 then 256 else if i == 9 then 512 else 1024
  }

  lemma BitIsMask(i: nat)
    requires i < WIDTH
    ensures Bit(i) == Mask(i)
  {
  }

  lemma MasksDisjoint(i: nat, j: nat)
    requires i < WIDTH && j < WIDTH
    ensures Mask(i) & Mask(j) != 0 <==> i == j
  {
  }

  lemma OrDistributes(a: bv16, b: bv16, m: bv16)
    ensures (a | b) & m != 0 <==> a & m != 0 || b & m != 0
  {
  }

  /** Setting bit `i` changes membership of level `i` and of no other level. */
  lemma SetBit(bits: bv16, i: nat, j: nat)
    requires i < WIDTH && j < WIDTH
    ensures Has(With(bits, i), j) <==> Has(bits, j) || i == j
  {
    BitIsMask(i);
    BitIsMask(j);
    MasksDisjoint(i, j);
    OrDistributes(bits, Bit(i), Bit(j));
  }

  /** A one-bit map holds its one level only. */
  lemma SingleBit(i: nat, j: nat)
    requires i < WIDTH && j < WIDTH
    ensures Has(Bit(i), j) <==> i == j
  {
    BitIsMask(i);
    BitIsMask(j);
    MasksDisjoint(i, j);
  }
}
