/** Unsigned 64-bit word helpers: Go's shift semantics, single-bit masks,
    population count and the clear-lowest-bit counting loop. */
module Bits {

  newtype uint8 = x: int | 0 <= x < 0x100

  /** Go's `x << n` on a `uint64`: a shift count of 64 or more yields 0.
      Shift counts are 16-bit words, wide enough for every count the board
      layout computes. */
  function GoShl(x: bv64, n: bv16): (r: bv64)
    ensures n >= 64 ==> r == 0
  {
    if n >= 64 then 0 else x << n
  }

  /** Go's `x >> n` on a `uint64`: a shift count of 64 or more yields 0. */
  function GoShr(x: bv64, n: bv16): (r: bv64)
    ensures n >= 64 ==> r == 0
  {
    if n >= 64 then 0 else x >> n
  }

  /** The mask with only bit `i` set (0 when `i` is past the word). Bit
      positions are 8-bit words so that the solver reasons about them
      without integer conversions. */
  function Bit(i: bv8): bv64
  {
    if i >= 64 then 0 else 1 << i
  }

  /** Bit `i` of `x` is set (never, for a position past the word). */
  predicate BitSet(x: bv64, i: bv8)
  {
    x & Bit(i) != 0
  }

  /** `x` is a sub-mask of `y`. */
  predicate Subset(x: bv64, y: bv64)
  {
    x & y == x
  }

  /** `x` and `y` share no set bit. */
  predicate Disjoint(x: bv64, y: bv64)
  {
    x & y == 0
  }

  /** `x` and `y` split `m`: together they are `m`, and they are disjoint. */
  predicate Partition(m: bv64, x: bv64, y: bv64)
  {
    x | y == m && Disjoint(x, y)
  }

  /** Transitivity of sub-masks. */
  lemma SubsetTrans(x: bv64, y: bv64, z: bv64)
    requires Subset(x, y) && Subset(y, z)
    ensures Subset(x, z)
  {
  }

  /** Within a mask `z`, toggling the bits of a sub-mask `m` clears them, so
      `x` restricted to `z ^ m` lies in `z` and misses `m`. */
  lemma MaskedToggle(x: bv64, m: bv64, z: bv64)
    ensures Subset(m, z) ==> Subset(x & (z ^ m), z & !m)
  {
  }

  lemma MaskedSubset(x: bv64, z: bv64)
    ensures Subset(x & z, z)
  {
  }

  /** Clearing the bits of `z` from a sub-mask of `y` keeps a sub-mask. */
  lemma ClearedSubset(x: bv64, y: bv64, z: bv64)
    requires Subset(x, y)
    ensures Subset(x & !z, y)
  {
  }

  /** Clearing the bits of `z` leaves nothing in common with `z`. */
  lemma ClearedDisjoint(x: bv64, z: bv64)
    ensures Disjoint(x & !z, z)
  {
  }

  /** `x` with bit `i` set as well. */
  function AddBit(x: bv64, i: bv8): bv64
  {
    x | Bit(i)
  }

  /** 1 when bit 0 of `x` is set, else 0. */
  function LowBit(x: bv64): nat
  {
    if x & 1 == 1 then 1 else 0
  }

  /** Number of set bits among the low `n` bits of `x`. The width is a
      bit-vector so that the solver never mixes integer and word reasoning. */
  function PopW(x: bv64, n: bv8): (r: nat)
    requires n <= 64
    decreases n as int
  {
    if n == 0 then 0 else LowBit(x) + PopW(x >> 1, n - 1)
  }

  /** One step of the count's recursion. */
  lemma PopWUnfold(x: bv64, n: bv8)
    requires 0 < n <= 64
    ensures PopW(x, n) == LowBit(x) + PopW(x >> 1, n - 1)
  {
  }

  lemma {:induction false} PopWBound(x: bv64, n: bv8)
    requires n <= 64
    ensures PopW(x, n) <= n as int
    decreases n as int
  {
    if n > 0 {
      PopWBound(x >> 1, n - 1);
    }
  }

  /** Population count of a 64-bit word. */
  function Popcount(x: bv64): (r: nat)
    ensures r <= 64
  {
    PopWBound(x, 64);
    PopW(x, 64)
  }

  /** `x` has no set bit at or above position `n`. */
  predicate Fits(x: bv64, n: bv8)
    requires n <= 64
    decreases n as int
  {
    if n == 0 then x == 0 else Fits(x >> 1, n - 1)
  }

  /** The largest word with no set bit at or above position `n`. */
  function Lim(n: bv8): bv64
    requires n <= 64
  {
    0xffff_ffff_ffff_ffff >> (64 - n)
  }

  lemma LimStep(n: bv8)
    requires 0 < n <= 64
    ensures Lim(n) >> 1 == Lim(n - 1)
  {
  }

  lemma ShiftMonotone(x: bv64, y: bv64)
    requires x <= y
    ensures x >> 1 <= y >> 1
  {
  }

  lemma {:induction false} FitsOfBound(x: bv64, n: bv8)
    requires n <= 64 && x <= Lim(n)
    ensures Fits(x, n)
    decreases n as int
  {
    if n > 0 {
      ShiftMonotone(x, Lim(n));
      LimStep(n);
      FitsOfBound(x >> 1, n - 1);
    }
  }

  /** Every word fits in 64 bits. */
  lemma FitsWord(x: bv64)
    ensures Fits(x, 64)
  {
    FitsOfBound(x, 64);
  }

  lemma ZeroStep(x: bv64)
    ensures x == 0 <==> (LowBit(x) == 0 && x >> 1 == 0)
  {
  }

  /** A word that fits in `n` bits has a zero count only when it is zero. */
  lemma {:induction false} PopWZero(x: bv64, n: bv8)
    requires n <= 64 && Fits(x, n)
    ensures PopW(x, n) == 0 <==> x == 0
    decreases n as int
  {
    if n > 0 {
      ZeroStep(x);
      PopWZero(x >> 1, n - 1);
    }
  }

  lemma PopcountZero(x: bv64)
    ensures Popcount(x) == 0 <==> x == 0
  {
    FitsWord(x);
    PopWZero(x, 64);
  }

  lemma ClearLowestOddStep(x: bv64)
    requires x & 1 == 1
    ensures LowBit(x & (x - 1)) == 0 && (x & (x - 1)) >> 1 == x >> 1
  {
  }

  lemma ClearLowestEvenStep(x: bv64)
    requires x != 0 && x & 1 == 0
    ensures LowBit(x & (x - 1)) == 0 && x >> 1 != 0
    ensures (x & (x - 1)) >> 1 == (x >> 1) & ((x >> 1) - 1)
  {
  }

  /** `x & (x - 1)` clears exactly one set bit (the lowest) of a nonzero word. */
  lemma {:induction false} PopWClearLowest(x: bv64, n: bv8)
    requires n <= 64 && Fits(x, n) && x != 0
    ensures PopW(x & (x - 1), n) == PopW(x, n) - 1
    decreases n as int
  {
    PopWUnfold(x, n);
    PopWUnfold(x & (x - 1), n);
    if x & 1 == 1 {
      ClearLowestOddStep(x);
    } else {
      ClearLowestEvenStep(x);
      PopWClearLowest(x >> 1, n - 1);
    }
  }

  lemma PopcountClearLowest(x: bv64)
    requires x != 0
    ensures Popcount(x & (x - 1)) == Popcount(x) - 1
  {
    FitsWord(x);
    PopWClearLowest(x, 64);
  }

  /** Clearing the lowest set bit leaves a nonzero word exactly when the
      word had at least two set bits. */
  lemma TwoOrMoreBits(x: bv64)
    ensures x & (x - 1) != 0 <==> Popcount(x) >= 2
  {
    PopcountZero(x);
    if x != 0 {
      PopcountClearLowest(x);
      PopcountZero(x & (x - 1));
    }
  }

  lemma RemoveShift(x: bv64, y: bv64)
    ensures (y ^ x) >> 1 == (y >> 1) ^ (x >> 1)
  {
  }

  lemma RemoveShiftSubset(x: bv64, y: bv64)
    requires Subset(x, y)
    ensures Subset(x >> 1, y >> 1)
  {
  }

  lemma RemoveLow(x: bv64, y: bv64)
    requires Subset(x, y)
    ensures LowBit(y ^ x) == LowBit(y) - LowBit(x)
  {
  }

  /** Removing a sub-mask subtracts its count. */
  lemma {:induction false} PopWRemove(x: bv64, y: bv64, n: bv8)
    requires n <= 64 && Subset(x, y)
    ensures PopW(y ^ x, n) == PopW(y, n) - PopW(x, n)
    decreases n as int
  {
    if n > 0 {
      RemoveShift(x, y);
      RemoveShiftSubset(x, y);
      RemoveLow(x, y);
      PopWRemove(x >> 1, y >> 1, n - 1);
      PopWUnfold(x, n);
      PopWUnfold(y, n);
      PopWUnfold(y ^ x, n);
    }
  }

  lemma PopcountRemove(x: bv64, y: bv64)
    requires Subset(x, y)
    ensures Popcount(y ^ x) == Popcount(y) - Popcount(x)
  {
    PopWRemove(x, y, 64);
  }

  lemma SingleBit(k: bv8)
    requires k < 64
    ensures Bit(k) != 0 && Bit(k) & (Bit(k) - 1) == 0
  {
  }

  /** A single-bit mask counts one. */
  lemma PopcountBit(k: bv8)
    requires k < 64
    ensures Popcount(Bit(k)) == 1
  {
    SingleBit(k);
    PopcountClearLowest(Bit(k));
    PopcountZero(0);
  }

  lemma SetBitSubset(x: bv64, k: bv8)
    ensures Subset(Bit(k), AddBit(x, k))
  {
  }

  lemma SetBitUndo(x: bv64, k: bv8)
    requires !BitSet(x, k)
    ensures AddBit(x, k) ^ Bit(k) == x
  {
  }

  /** Setting a bit that was clear raises the count by one. */
  lemma PopcountSetBit(x: bv64, k: bv8)
    requires k < 64 && !BitSet(x, k)
    ensures Popcount(AddBit(x, k)) == Popcount(x) + 1
  {
    SetBitSubset(x, k);
    SetBitUndo(x, k);
    PopcountRemove(Bit(k), AddBit(x, k));
    PopcountBit(k);
  }

  /** A sub-mask never has more set bits. */
  lemma PopcountMonotone(x: bv64, y: bv64)
    requires Subset(x, y)
    ensures Popcount(x) <= Popcount(y)
  {
    PopcountRemove(x, y);
  }

  /** Go's `count_ones`: repeatedly clear the lowest set bit, counting steps. */
  method CountOnes(mask: bv64) returns (count: uint8)
    ensures count as int == Popcount(mask)
  {
    count := 0;
    var m := mask;
    while m != 0
      invariant count as int + Popcount(m) == Popcount(mask)
      decreases Popcount(m)
    {
      PopcountClearLowest(m);
      m := m & (m - 1);
      count := count + 1;
    }
    PopcountZero(m);
  }
}
