/** JavaScript's 32-bit operators on integers. Operands and results are numbers and the
    wrap-around is written out; shifts are repeated doubling and halving. */
module Int32 {

  const TWO_TO_31 := 0x8000_0000
  const TWO_TO_32 := 0x1_0000_0000

  type Byte = b: int | 0 <= b < 256

  /** x * 2^k */
  function Double(x: int, k: nat): int { if k == 0 then x else 2 * Double(x, k - 1) }

  /** x / 2^k, rounded down */
  function Halve(x: int, k: nat): int
    decreases k
  {
    if k == 0 then x else Halve(x / 2, k - 1)
  }

  /** The signed 32-bit number congruent to `x`. */
  function ToInt32(x: int): int { (x + TWO_TO_31) % TWO_TO_32 - TWO_TO_31 }

  function ToUint32(x: int): nat { x % TWO_TO_32 }

  /** `x << k` */
  function Shl(x: int, k: nat): int { ToInt32(Double(x, k)) }

  /** `x >>> k` */
  function Shr(x: int, k: nat): int { Halve(ToUint32(x), k) }

  /** `x | y` where the low bits of `x`, those below `unit`, are clear and `y` has no others. */
  function Or(x: int, y: int, unit: int): int
    requires unit > 0 && x % unit == 0 && 0 <= y < unit
  {
    x + y
  }

  lemma {:induction false} DoublePlus(x: int, a: nat, b: nat)
    ensures Double(x, a + b) == Double(Double(x, a), b)
  {
    if b > 0 { DoublePlus(x, a, b - 1); }
  }

  lemma {:induction false} HalvePlus(x: int, a: nat, b: nat)
    ensures Halve(x, a + b) == Halve(Halve(x, a), b)
    decreases a
  {
    if a > 0 { HalvePlus(x / 2, a - 1, b); }
  }

  /** Adding a multiple of m * 2^k before a shift adds that multiple of m after it. */
  lemma {:induction false} HalveCongruent(x: int, m: int, d: int, k: nat)
    ensures Halve(x + Double(m * d, k), k) == Halve(x, k) + m * d
    decreases k
  {
    if k > 0 {
      assert (x + Double(m * d, k)) / 2 == x / 2 + Double(m * d, k - 1);
      HalveCongruent(x / 2, m, d, k - 1);
    }
  }

  lemma SmallShifts(x: int)
    ensures Double(x, 1) == 2 * x && Double(x, 2) == 4 * x && Double(x, 3) == 8 * x && Double(x, 4) == 16 * x
    ensures Halve(x, 1) == x / 2 && Halve(x, 2) == x / 4 && Halve(x, 3) == x / 8 && Halve(x, 4) == x / 16
  {
    assert Double(x, 2) == 2 * Double(x, 1) && Double(x, 4) == 2 * Double(x, 3);
    assert Halve(x, 3) == Halve(x / 2, 2) == Halve(x / 4, 1) == x / 8;
    assert Halve(x, 4) == Halve(x / 2, 3) == Halve(x / 4, 2) == Halve(x / 8, 1);
  }

  lemma HalveIsDiv(x: int)
    ensures Halve(x, 5) == x / 32 && Halve(x, 6) == x / 64 && Halve(x, 8) == x / 256
    ensures Double(x, 5) == 32 * x && Double(x, 6) == 64 * x && Double(x, 8) == 256 * x
  {
    SmallShifts(x); SmallShifts(x / 16); SmallShifts(16 * x);
    HalvePlus(x, 4, 1); HalvePlus(x, 4, 2); HalvePlus(x, 4, 4);
    DoublePlus(x, 4, 1); DoublePlus(x, 4, 2); DoublePlus(x, 4, 4);
  }

  /** 2^32 is a multiple of 32 * 2^k for every k up to 27, so wrapping never disturbs five bits
      read from that far down. */
  lemma WrapIsMultiple(d: int, k: nat)
    requires k <= 27
    ensures Double(32 * Double(d, 27 - k), k) == TWO_TO_32 * d
  {
    DoublePlus(d, 27 - k, k);
    DoubleScale(32, Double(d, 27 - k), k);
    DoublePlus(d, 8, 8); DoublePlus(d, 16, 8); DoublePlus(d, 24, 3);
    HalveIsDiv(d); HalveIsDiv(256 * d); HalveIsDiv(65536 * d);
    SmallShifts(16777216 * d);
  }

  lemma {:induction false} DoubleScale(m: int, x: int, k: nat)
    ensures Double(m * x, k) == m * Double(x, k)
  {
    if k > 0 {
      DoubleScale(m, x, k - 1);
      assert 2 * (m * Double(x, k - 1)) == m * (2 * Double(x, k - 1));
    }
  }
}
