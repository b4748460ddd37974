/**
 * Go's bitwise operators `&` and `&^` (AND NOT, "bit clear") on non-negative
 * integers, defined one binary digit at a time.
 *
 * The mailbox masks `^2` and `^3` are negative int32 constants; for a
 * non-negative word `s`, `s & ^m` keeps exactly the bits of `s` not set in `m`,
 * which is `s &^ m`, so every mask test of the mailbox is written with these two.
 */
module Bits {

  /** `a & b`: the bits set in both. */
  function And(a: nat, b: nat): (r: nat)
  {
    if a == 0 || b == 0 then 0
    else 2 * And(a / 2, b / 2) + (if a % 2 == 1 && b % 2 == 1 then 1 else 0)
  }

  /** `a &^ b`: the bits of `a` that are not set in `b`. */
  function AndNot(a: nat, b: nat): (r: nat)
    ensures r <= a
  {
    if a == 0 then 0
    else 2 * AndNot(a / 2, b / 2) + (if a % 2 == 1 && b % 2 == 0 then 1 else 0)
  }

  /** Clearing no bits leaves the word as it is. */
  lemma {:induction false} AndNotNothing(a: nat)
    ensures AndNot(a, 0) == a
  {
    if a != 0 {
      AndNotNothing(a / 2);
    }
  }

  /** Every bit of `a` is either kept by `a & b` or by `a &^ b`, never both. */
  lemma {:induction false} AndPlusAndNot(a: nat, b: nat)
    ensures And(a, b) + AndNot(a, b) == a
  {
    if a != 0 {
      if b == 0 {
        AndNotNothing(a);
      } else {
        AndPlusAndNot(a / 2, b / 2);
      }
    }
  }

  /** `a &^ 2` (clear bit 1) keeps the suspend counter (bits 2 and up) and bit 0. */
  lemma ClearBitOne(a: nat)
    ensures AndNot(a, 2) == 4 * (a / 4) + a % 2
  {
    if a / 2 != 0 {
      AndNotNothing(a / 4);
      assert AndNot(a / 2, 1) == 2 * (a / 4);
    }
  }

  /** `a &^ 3` (clear bits 0 and 1) keeps only the suspend counter. */
  lemma ClearLowBits(a: nat)
    ensures AndNot(a, 3) == 4 * (a / 4)
  {
    if a / 2 != 0 {
      AndNotNothing(a / 4);
      assert AndNot(a / 2, 1) == 2 * (a / 4);
    }
  }
}
