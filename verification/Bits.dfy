/** The slot mask of storage/flashwork.c: single bits of a natural number. */
module Bits {

  predicate Bit(m: nat, i: nat) {
    if i == 0 then m % 2 == 1 else Bit(m / 2, i - 1)
  }

  /** m |= 1 << i */
  function SetBit(m: nat, i: nat): nat {
    if i == 0 then (if m % 2 == 1 then m else m + 1) else 2 * SetBit(m / 2, i - 1) + m % 2
  }

  /** m &= ~(1 << i) */
  function ClearBit(m: nat, i: nat): nat {
    if i == 0 then (if m % 2 == 1 then m - 1 else m) else 2 * ClearBit(m / 2, i - 1) + m % 2
  }

  function Pow2(k: nat): nat { if k == 0 then 1 else 2 * Pow2(k - 1) }

  lemma {:induction false} BitAfterSet(m: nat, i: nat, j: nat)
    ensures Bit(SetBit(m, i), j) <==> i == j || Bit(m, j)
  {
    if i > 0 && j > 0 {
      BitAfterSet(m / 2, i - 1, j - 1);
    }
  }

  lemma {:induction false} BitAfterClear(m: nat, i: nat, j: nat)
    ensures Bit(ClearBit(m, i), j) <==> i != j && Bit(m, j)
  {
    if i > 0 && j > 0 {
      BitAfterClear(m / 2, i - 1, j - 1);
    }
  }

  /** A mask below 2^k has no bits from `k` on. */
  lemma {:induction false} NoHighBits(m: nat, k: nat, i: nat)
    requires m < Pow2(k) && k <= i
    ensures !Bit(m, i)
  {
    if k == 0 { NoBits(i); } else { NoHighBits(m / 2, k - 1, i - 1); }
  }

  /** A mask that is not below 2^k has one. */
  lemma {:induction false} HighBit(m: nat, k: nat) returns (i: nat)
    requires m >= Pow2(k)
    ensures i >= k && Bit(m, i)
  {
    if k == 0 { i := TopBit(m); } else {
      i := HighBit(m / 2, k - 1);
      i := i + 1;
    }
  }

  lemma {:induction false} NoBits(i: nat)
    ensures !Bit(0, i)
  {
    if i > 0 { NoBits(i - 1); }
  }

  lemma {:induction false} TopBit(m: nat) returns (i: nat)
    requires m > 0
    ensures Bit(m, i)
  {
    if m == 1 { i := 0; } else {
      i := TopBit(m / 2);
      i := i + 1;
    }
  }
}
