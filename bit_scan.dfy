/**
 * The least-differing-bit scan that the test lifecycle uses to name the
 * offending error bit of a status register (test.cpp, ReportOffendingBitPos).
 *
 * Two scans live here: the one the source performs, whose masks are the C
 * expression `1 << i` evaluated in `int` and then widened to 64 bits (the
 * single bit i only for i <= 30), and the scan with true 64-bit masks that
 * the loop bound of 64 evidently intends.
 */
module BitScan {

  /** INT_MAX of a 32-bit `int`: the "no mismatch" answer of the scan. */
  const INT_MAX: int := 0x7fff_ffff

  /**
   * The single-bit mask of position i in 64 bits, the value of `1 << i`:
   * 1 doubled i times (position 64 has shifted out, leaving 0).
   */
  function Mask(i: nat): bv64
    requires i <= 64
  {
    if i == 0 then 1 else Mask(i - 1) << 1
  }

  /** a and b differ under the mask m: `(a & m) != (b & m)`. */
  predicate Differs(a: bv64, b: bv64, m: bv64)
  {
    a & m != b & m
  }

  /** Bit i of a and bit i of b differ. */
  predicate DiffersAt(a: bv64, b: bv64, i: nat)
    requires i < 64
  {
    Differs(a, b, Mask(i))
  }

  /** Bit i of v is set. */
  predicate BitSet(v: bv64, i: nat)
    requires i < 64
  {
    v & Mask(i) != 0
  }

  /** Bits 0 .. n-1 of a and b agree. */
  predicate SameBelow(a: bv64, b: bv64, n: nat)
    requires n <= 64
  {
    forall j :: 0 <= j < n ==> !DiffersAt(a, b, j)
  }

  // ---------------------------------------------------------------------
  // The scan with 64-bit masks
  // ---------------------------------------------------------------------

  /** Least position at or above i where a and b differ, or INT_MAX. */
  function ScanFrom(a: bv64, b: bv64, i: nat): (r: int)
    requires i <= 64
    ensures r == INT_MAX || i <= r < 64
    ensures r == INT_MAX ==> forall j :: i <= j < 64 ==> !DiffersAt(a, b, j)
    ensures r != INT_MAX ==> DiffersAt(a, b, r) && forall j :: i <= j < r ==> !DiffersAt(a, b, j)
    decreases 64 - i
  {
    if i == 64 then INT_MAX
    else if DiffersAt(a, b, i) then i
    else ScanFrom(a, b, i + 1)
  }

  /**
   * The least bit position where a and b differ over the full 64-bit width;
   * INT_MAX exactly when they are equal.
   */
  function LeastDifferingBit(a: bv64, b: bv64): (r: int)
    ensures a == b ==> r == INT_MAX
    ensures r == INT_MAX ==> a == b
    ensures r != INT_MAX ==> 0 <= r < 64 && DiffersAt(a, b, r) && SameBelow(a, b, r)
  {
    ScanFromStart(a, b);
    ScanFrom(a, b, 0)
  }

  /** The scan from position 0 answers INT_MAX exactly for equal values. */
  lemma ScanFromStart(a: bv64, b: bv64)
    ensures a == b ==> ScanFrom(a, b, 0) == INT_MAX
    ensures ScanFrom(a, b, 0) == INT_MAX ==> a == b
    ensures ScanFrom(a, b, 0) != INT_MAX ==>
      0 <= ScanFrom(a, b, 0) < 64 && DiffersAt(a, b, ScanFrom(a, b, 0)) && SameBelow(a, b, ScanFrom(a, b, 0))
  {
    ScanOfEqualValues(a, b, 0);
    ScanFindsEveryDifference(a, b);
  }

  /** Equal values differ nowhere, so the scan runs off the end. */
  lemma {:induction false} ScanOfEqualValues(a: bv64, b: bv64, i: nat)
    requires i <= 64
    ensures a == b ==> ScanFrom(a, b, i) == INT_MAX
    decreases 64 - i
  {
    if i < 64 {
      ScanOfEqualValues(a, b, i + 1);
    }
  }

  /** A scan that finds no differing bit has compared equal values. */
  lemma ScanFindsEveryDifference(a: bv64, b: bv64)
    ensures ScanFrom(a, b, 0) == INT_MAX ==> a == b
  {
    if ScanFrom(a, b, 0) == INT_MAX {
      BitsDetermine(a, b);
    }
  }

  // ---------------------------------------------------------------------
  // The scan as the source writes it
  // ---------------------------------------------------------------------

  /**
   * The mask the source computes as `1 << i`: a shift of the `int` 1, then
   * widened to 64 bits. For i <= 30 it is the single bit i. At 31 it is the
   * sign bit of the `int` (INT_MIN from C++14 on), which sign-extends when
   * widened; from 32 on the shift is undefined. The masks of positions
   * 31 .. 63 are therefore given by `beyond` (beyond[i - 31] is the mask
   * used at position i).
   */
  function IntShiftMask(i: nat, beyond: seq<bv64>): (m: bv64)
    requires i < 64 && |beyond| == 33
  {
    if i <= 30 then Mask(i) else beyond[i - 31]
  }

  /** 2^n on unbounded integers. */
  function TwoTo(n: nat): (r: nat)
    ensures r >= 1
  {
    if n == 0 then 1 else 2 * TwoTo(n - 1)
  }

  /**
   * For i <= 30 the source's mask is the integer 2^i, at
   * most 2^30: `1 << i` stays within a 32-bit `int` and is positive, so
   * widening it to 64 bits keeps that single bit.
   */
  lemma IntShiftValue(i: nat, beyond: seq<bv64>)
    requires i <= 30 && |beyond| == 33
    ensures IntShiftMask(i, beyond) as int == TwoTo(i)
    ensures 1 <= IntShiftMask(i, beyond) as int <= 0x4000_0000
  {
    MaskValue(i);
    TwoToMonotone(i, 30);
    TwoToThirty();
  }

  /** Doubling a value below 2^62 by a shift doubles its integer value. */
  lemma ShiftDoubles(x: bv64, y: bv64)
    requires x as int < 0x4000_0000_0000_0000 && y == x << 1
    ensures y as int == 2 * (x as int)
  {
  }

  lemma {:induction false} TwoToMonotone(a: nat, b: nat)
    requires a <= b
    ensures TwoTo(a) <= TwoTo(b)
    decreases b
  {
    if a < b {
      TwoToMonotone(a, b - 1);
    }
  }

  lemma TwoToThirty()
    ensures TwoTo(30) == 0x4000_0000
  {
    assert TwoTo(10) == 1024;
    assert TwoTo(20) == 1024 * 1024;
  }

  /** Up to position 30 the mask, read as an integer, is 2^i. */
  lemma {:induction false} MaskValue(i: nat)
    requires i <= 30
    ensures Mask(i) as int == TwoTo(i)
  {
    if i > 0 {
      MaskStep(i);
      MaskValue(i - 1);
      DoubleStep(Mask(i - 1), Mask(i), i - 1);
    }
  }

  /** Each mask is the previous one shifted left by one. */
  lemma MaskStep(i: nat)
    requires 0 < i <= 64
    ensures Mask(i) == Mask(i - 1) << 1
  {
  }

  /** Shifting 2^n left by one gives 2^(n + 1), while n stays below 30. */
  lemma DoubleStep(x: bv64, y: bv64, n: nat)
    requires n < 30 && x as int == TwoTo(n) && y == x << 1
    ensures y as int == TwoTo(n + 1)
  {
    TwoToMonotone(n, 30);
    TwoToThirty();
    ShiftDoubles(x, y);
  }

  /** The source's scan from position i with its `int`-width masks. */
  function ScanAsWritten(val: bv64, expectedVal: bv64, beyond: seq<bv64>, i: nat): (r: int)
    requires i <= 64 && |beyond| == 33
    ensures r == INT_MAX || i <= r < 64
    ensures r != INT_MAX ==> Differs(val, expectedVal, IntShiftMask(r, beyond))
    decreases 64 - i
  {
    if i == 64 then INT_MAX
    else
      var bitMask := IntShiftMask(i, beyond);
      if Differs(val, expectedVal, bitMask) then i
      else ScanAsWritten(val, expectedVal, beyond, i + 1)
  }

  /**
   * ReportOffendingBitPos: scans positions 0 .. 63 with the mask `1 << i`
   * and returns the first position where val and expectedVal differ, or
   * INT_MAX. Equal inputs give INT_MAX; when the least differing bit is one
   * of 0 .. 30 the answer is that bit. Higher differences are reported at
   * some position in 31 .. 63 or as INT_MAX, depending on `beyond`.
   */
  method ReportOffendingBitPos(val: bv64, expectedVal: bv64, beyond: seq<bv64>) returns (pos: int)
    requires |beyond| == 33
    ensures pos == ScanAsWritten(val, expectedVal, beyond, 0)
    ensures val == expectedVal ==> pos == INT_MAX
    ensures LeastDifferingBit(val, expectedVal) <= 30 ==> pos == LeastDifferingBit(val, expectedVal)
    ensures LeastDifferingBit(val, expectedVal) > 30 ==> pos == INT_MAX || 31 <= pos < 64
  {
    ReportedPosition(val, expectedVal, beyond);
    var i := 0;
    while i < 64
      invariant 0 <= i <= 64
      invariant ScanAsWritten(val, expectedVal, beyond, i) == ScanAsWritten(val, expectedVal, beyond, 0)
    {
      var bitMask := IntShiftMask(i, beyond);
      if Differs(val, expectedVal, bitMask) {
        return i;
      }
      i := i + 1;
    }
    return INT_MAX;
  }

  /** What the source's scan from position 0 reports, against the 64-bit scan. */
  lemma ReportedPosition(val: bv64, expectedVal: bv64, beyond: seq<bv64>)
    requires |beyond| == 33
    ensures val == expectedVal ==> ScanAsWritten(val, expectedVal, beyond, 0) == INT_MAX
    ensures LeastDifferingBit(val, expectedVal) <= 30 ==>
      ScanAsWritten(val, expectedVal, beyond, 0) == LeastDifferingBit(val, expectedVal)
    ensures LeastDifferingBit(val, expectedVal) > 30 ==>
      ScanAsWritten(val, expectedVal, beyond, 0) == INT_MAX || 31 <= ScanAsWritten(val, expectedVal, beyond, 0)
  {
    AgreesBelow31(val, expectedVal, beyond, 0);
  }

  /**
   * Up to position 30 the source's scan and the 64-bit scan see the same
   * masks, so whenever the least difference at or above i lies in 0 .. 30
   * both report it; otherwise the source's scan reports nothing below 31.
   */
  lemma {:induction false} AgreesBelow31(val: bv64, expectedVal: bv64, beyond: seq<bv64>, i: nat)
    requires i <= 64 && |beyond| == 33
    ensures ScanFrom(val, expectedVal, i) <= 30 ==>
      ScanAsWritten(val, expectedVal, beyond, i) == ScanFrom(val, expectedVal, i)
    ensures ScanFrom(val, expectedVal, i) > 30 ==>
      ScanAsWritten(val, expectedVal, beyond, i) == INT_MAX || 31 <= ScanAsWritten(val, expectedVal, beyond, i)
    decreases 64 - i
  {
    if i < 64 {
      AgreesBelow31(val, expectedVal, beyond, i + 1);
    }
  }

  /**
   * The value `1 << 31` takes on two's-complement platforms (INT_MIN),
   * sign-extended when widened to 64 bits.
   */
  const INT_MIN_WIDENED: bv64 := 0xffff_ffff_8000_0000

  /**
   * With that value at position 31, a difference confined to bit 32 is
   * reported as position 31, whereas the least differing bit is 32.
   */
  lemma HighBitMisreported(beyond: seq<bv64>)
    requires |beyond| == 33 && beyond[0] == INT_MIN_WIDENED
    ensures LeastDifferingBit(Mask(32), 0) == 32
    ensures ScanAsWritten(Mask(32), 0, beyond, 0) == 31
  {
    var v: bv64 := Mask(32);
    MaskHigh();
    assert SameBelow(v, 0, 32) by {
      forall j | 0 <= j < 32 ensures !DiffersAt(v, 0, j) {
        MasksDisjoint(j, 32);
      }
    }
    assert DiffersAt(v, 0, 32);
    assert ScanFrom(v, 0, 0) == 32 by {
      ScanFromSkips(v, 0, 0, 32);
    }
    AsWrittenSkips(v, 0, beyond, 0, 31);
    assert v & INT_MIN_WIDENED != 0;
  }

  lemma MaskHigh()
    ensures Mask(32) == 0x1_0000_0000
    ensures Mask(64) == 0
  {
    assert Mask(8) == 0x100;
    assert Mask(16) == 0x1_0000;
    assert Mask(24) == 0x100_0000;
    assert Mask(40) == 0x100_0000_0000;
    assert Mask(48) == 0x1_0000_0000_0000;
    assert Mask(56) == 0x100_0000_0000_0000;
  }

  /** A scan that finds no difference on i .. k-1 continues at k. */
  lemma {:induction false} ScanFromSkips(a: bv64, b: bv64, i: nat, k: nat)
    requires i <= k <= 64
    requires forall j :: i <= j < k ==> !DiffersAt(a, b, j)
    ensures ScanFrom(a, b, i) == ScanFrom(a, b, k)
    decreases k - i
  {
    if i < k {
      ScanFromSkips(a, b, i + 1, k);
    }
  }

  /** The source's scan, likewise, continues past equal low positions. */
  lemma {:induction false} AsWrittenSkips(val: bv64, expectedVal: bv64, beyond: seq<bv64>, i: nat, k: nat)
    requires i <= k <= 31 && |beyond| == 33
    requires forall j :: i <= j < k ==> !DiffersAt(val, expectedVal, j)
    ensures ScanAsWritten(val, expectedVal, beyond, i) == ScanAsWritten(val, expectedVal, beyond, k)
    decreases k - i
  {
    if i < k {
      assert IntShiftMask(i, beyond) == Mask(i);
      assert !DiffersAt(val, expectedVal, i);
      AsWrittenSkips(val, expectedVal, beyond, i + 1, k);
    }
  }

  // ---------------------------------------------------------------------
  // Equal bits everywhere means equal values
  // ---------------------------------------------------------------------

  /** The bits 0 .. n-1 set. */
  function LowMask(n: nat): bv64
    requires n <= 64
  {
    if n == 0 then 0 else LowMask(n - 1) | Mask(n - 1)
  }

  /** Shifting preserves disjointness and clears bit 0. */
  lemma ShiftAnd(x: bv64, y: bv64)
    ensures (x << 1) & (y << 1) == (x & y) << 1
    ensures (x << 1) & 1 == 0
  {
  }

  /** Masks of different positions share no bit. */
  lemma {:induction false} MasksDisjoint(i: nat, j: nat)
    requires i < j <= 64
    ensures Mask(i) & Mask(j) == 0
  {
    ShiftAnd(Mask(j - 1), if i == 0 then 0 else Mask(i - 1));
    if i > 0 {
      MasksDisjoint(i - 1, j - 1);
    }
  }

  /** A value with at most one bit set, doubled, still has at most one; and
      the bits below it together with it are the bits below its double. */
  lemma DoubleFill(x: bv64)
    requires x & (x - 1) == 0
    ensures (x << 1) & ((x << 1) - 1) == 0
    ensures (x - 1) | x == (x << 1) - 1
  {
  }

  lemma {:induction false} MaskSingle(i: nat)
    requires i <= 64
    ensures Mask(i) & (Mask(i) - 1) == 0
  {
    if i > 0 {
      MaskSingle(i - 1);
      DoubleFill(Mask(i - 1));
    }
  }

  /** LowMask(n) is Mask(n) - 1: 2^n - 1, every bit set at n = 64. */
  lemma {:induction false} LowMaskValue(n: nat)
    requires n <= 64
    ensures LowMask(n) == Mask(n) - 1
  {
    if n > 0 {
      LowMaskValue(n - 1);
      MaskSingle(n - 1);
      DoubleFill(Mask(n - 1));
    }
  }

  lemma LowMaskFull()
    ensures LowMask(64) == 0xffff_ffff_ffff_ffff
  {
    LowMaskValue(64);
    MaskHigh();
  }

  lemma OrClear(d: bv64, l: bv64, k: bv64)
    requires d & l == 0 && d & k == 0
    ensures d & (l | k) == 0
  {
  }

  lemma XorBit(a: bv64, b: bv64, k: bv64)
    requires !Differs(a, b, k)
    ensures (a ^ b) & k == 0
  {
  }

  /** Bit j of d is clear. */
  predicate BitClear(d: bv64, j: nat)
    requires j < 64
  {
    d & Mask(j) == 0
  }

  lemma {:induction false} LowBitsClear(d: bv64, n: nat)
    requires n <= 64
    requires forall j :: 0 <= j < n ==> BitClear(d, j)
    ensures d & LowMask(n) == 0
  {
    if n > 0 {
      LowBitsClear(d, n - 1);
      assert BitClear(d, n - 1);
      OrClear(d, LowMask(n - 1), Mask(n - 1));
    }
  }

  /** Two 64-bit values that agree on every bit are equal. */
  lemma BitsDetermine(a: bv64, b: bv64)
    requires forall j :: 0 <= j < 64 ==> !DiffersAt(a, b, j)
    ensures a == b
  {
    var d := a ^ b;
    forall j | 0 <= j < 64 ensures BitClear(d, j) {
      assert !DiffersAt(a, b, j);
      XorBit(a, b, Mask(j));
    }
    LowBitsClear(d, 64);
    LowMaskFull();
  }
}
