/** Bits of bytes, and what the mask-and-shift steps of the bit streams do to them. */
module Bits {

  /** b << k, for a whole byte or less. */
  function Shl(b: bv8, k: nat): bv8
    requires k <= 8
  {
    match k
    case 0 => b
    case 1 => b << 1
    case 2 => b << 2
    case 3 => b << 3
    case 4 => b << 4
    case 5 => b << 5
    case 6 => b << 6
    case 7 => b << 7
    case _ => 0
  }

  /** b >> k, for a whole byte or less. */
  function Shr(b: bv8, k: nat): bv8
    requires k <= 8
  {
    match k
    case 0 => b
    case 1 => b >> 1
    case 2 => b >> 2
    case 3 => b >> 3
    case 4 => b >> 4
    case 5 => b >> 5
    case 6 => b >> 6
    case 7 => b >> 7
    case _ => 0
  }

  /** Bit i of a byte, the least significant one first. */
  function Bit(b: bv8, i: nat): bool
    requires i < 8
  {
    match i
    case 0 => b & 1 != 0
    case 1 => b & 2 != 0
    case 2 => b & 4 != 0
    case 3 => b & 8 != 0
    case 4 => b & 16 != 0
    case 5 => b & 32 != 0
    case 6 => b & 64 != 0
    case _ => b & 128 != 0
  }

  lemma ShlBit(b: bv8, k: nat, i: nat)
    requires k <= 8 && i < 8
    ensures Bit(Shl(b, k), i) == (i >= k && Bit(b, i - k))
  {
  }

  lemma ShrBit(b: bv8, k: nat, i: nat)
    requires k <= 8 && i < 8
    ensures Bit(Shr(b, k), i) == (i + k < 8 && Bit(b, i + k))
  {
  }

  function Or(a: bv8, b: bv8): bv8 { a | b }
  function And(a: bv8, b: bv8): bv8 { a & b }
  function Not(a: bv8): bv8 { !a }

  lemma OrBit(a: bv8, b: bv8, i: nat)
    requires i < 8
    ensures Bit(Or(a, b), i) == (Bit(a, i) || Bit(b, i))
  {
    match i
    case 0 => assert (a | b) & 1 == (a & 1) | (b & 1);
    case 1 => assert (a | b) & 2 == (a & 2) | (b & 2);
    case 2 => assert (a | b) & 4 == (a & 4) | (b & 4);
    case 3 => assert (a | b) & 8 == (a & 8) | (b & 8);
    case 4 => assert (a | b) & 16 == (a & 16) | (b & 16);
    case 5 => assert (a | b) & 32 == (a & 32) | (b & 32);
    case 6 => assert (a | b) & 64 == (a & 64) | (b & 64);
    case _ => assert (a | b) & 128 == (a & 128) | (b & 128);
  }

  lemma AndBit(a: bv8, b: bv8, i: nat)
    requires i < 8
    ensures Bit(And(a, b), i) == (Bit(a, i) && Bit(b, i))
  {
    match i
    case 0 => assert (a & b) & 1 == (a & 1) & (b & 1);
    case 1 => assert (a & b) & 2 == (a & 2) & (b & 2);
    case 2 => assert (a & b) & 4 == (a & 4) & (b & 4);
    case 3 => assert (a & b) & 8 == (a & 8) & (b & 8);
    case 4 => assert (a & b) & 16 == (a & 16) & (b & 16);
    case 5 => assert (a & b) & 32 == (a & 32) & (b & 32);
    case 6 => assert (a & b) & 64 == (a & 64) & (b & 64);
    case _ => assert (a & b) & 128 == (a & 128) & (b & 128);
  }

  lemma NotBit(a: bv8, i: nat)
    requires i < 8
    ensures Bit(Not(a), i) == !Bit(a, i)
  {
  }

  lemma OnesBit(i: nat)
    requires i < 8
    ensures Bit(0xff, i)
  {
  }
}
