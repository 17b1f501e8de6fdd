/** The parts of java.math.BigDecimal that the modelled code relies on. A
    BigDecimal is modelled by its exact value, a `real`; its scale matters only
    where the code rounds, and the code rounds only to two places (HALF_UP and
    CEILING) and to four places (HALF_UP), which the functions below do.

    The facts about the roundings are stated as separate lemmas, so that each
    proof sees only the facts it asks for. */
module Numerics {

  /** The greatest integer not above y. */
  function Floor(y: real): int
  {
    y.Floor
  }

  lemma FloorBounds(y: real)
    ensures Floor(y) as real <= y < Floor(y) as real + 1.0
  {
  }

  lemma FloorOfInt(n: int)
    ensures Floor(n as real) == n
  {
  }

  /** The whole number of units that RoundingMode.HALF_UP keeps: the nearest
      one, ties away from zero. */
  function HalfUpUnits(y: real): int
  {
    if y >= 0.0 then Floor(y + 0.5) else -Floor(0.5 - y)
  }

  /** The whole number of units that RoundingMode.CEILING keeps: the least one
      not below y. */
  function CeilingUnits(y: real): int
  {
    -Floor(-y)
  }

  lemma HalfUpUnitsBounds(y: real)
    ensures -0.5 <= HalfUpUnits(y) as real - y <= 0.5
  {
    if y >= 0.0 {
      FloorBounds(y + 0.5);
    } else {
      FloorBounds(0.5 - y);
    }
  }

  lemma CeilingUnitsBounds(y: real)
    ensures y <= CeilingUnits(y) as real < y + 1.0
  {
    FloorBounds(-y);
  }

  /** Rounding half up keeps the order of two values. */
  lemma HalfUpUnitsMonotonic(y1: real, y2: real)
    requires y1 <= y2
    ensures HalfUpUnits(y1) <= HalfUpUnits(y2)
  {
    FloorBounds(y1 + 0.5);
    FloorBounds(y2 + 0.5);
    FloorBounds(0.5 - y1);
    FloorBounds(0.5 - y2);
  }

  /** A value exactly half-way between two whole numbers goes to the one
      further from zero, which is what sets HALF_UP apart from HALF_EVEN and
      HALF_DOWN. */
  lemma HalfUpUnitsTie(n: nat)
    ensures HalfUpUnits(n as real + 0.5) == n + 1
    ensures HalfUpUnits(-(n as real) - 0.5) == -(n + 1)
  {
    FloorOfInt(n + 1);
  }

  lemma HalfUpUnitsOfInt(n: int)
    ensures HalfUpUnits(n as real) == n
  {
    FloorBounds(n as real + 0.5);
    FloorBounds(0.5 - n as real);
  }

  /** x is a whole number of cents, as a BigDecimal of scale 2 is. */
  predicate IsCents(x: real)
  {
    Floor(x * 100.0) as real == x * 100.0
  }

  /** `x.setScale(2, RoundingMode.HALF_UP)`, which is also what
      `a.divide(b, 2, RoundingMode.HALF_UP)` returns for x = a / b. */
  function RoundCents(x: real): real
  {
    HalfUpUnits(x * 100.0) as real / 100.0
  }

  /** `x.setScale(2, RoundingMode.CEILING)`: rounds towards positive infinity. */
  function RoundCentsUp(x: real): real
  {
    CeilingUnits(x * 100.0) as real / 100.0
  }

  /** `x.setScale(4, RoundingMode.HALF_UP)`, which is also what
      `a.divide(b, 4, RoundingMode.HALF_UP)` returns for x = a / b. */
  function RoundTenThousandths(x: real): real
  {
    HalfUpUnits(x * 10000.0) as real / 10000.0
  }

  /** A half cent goes to the cent further from zero: 0.125 becomes 0.13
      and -0.125 becomes -0.13. */
  lemma RoundCentsTie(n: nat)
    ensures RoundCents((n as real + 0.5) / 100.0) == (n + 1) as real / 100.0
    ensures RoundCents(-(n as real + 0.5) / 100.0) == -((n + 1) as real) / 100.0
    ensures RoundCents(0.125) == 0.13 && RoundCents(-0.125) == -0.13
  {
    HalfUpUnitsTie(n);
    assert (n as real + 0.5) / 100.0 * 100.0 == n as real + 0.5;
    assert -(n as real + 0.5) / 100.0 * 100.0 == -(n as real) - 0.5;
    HalfUpUnitsTie(12);
    assert 0.125 * 100.0 == 12 as real + 0.5;
    assert -0.125 * 100.0 == -(12 as real) - 0.5;
  }

  /** The results of both roundings to cents are whole numbers of cents. */
  lemma RoundCentsIsCents(x: real)
    ensures IsCents(RoundCents(x)) && IsCents(RoundCentsUp(x))
  {
    FloorOfInt(HalfUpUnits(x * 100.0));
    FloorOfInt(CeilingUnits(x * 100.0));
  }

  /** HALF_UP rounding to cents moves a value by at most half a cent. */
  lemma RoundCentsError(x: real)
    ensures -0.005 <= RoundCents(x) - x <= 0.005
  {
    HalfUpUnitsBounds(x * 100.0);
  }

  /** HALF_UP rounding to four places moves a value by at most half a unit
      of the fourth place. */
  lemma RoundTenThousandthsError(x: real)
    ensures -0.00005 <= RoundTenThousandths(x) - x <= 0.00005
  {
    HalfUpUnitsBounds(x * 10000.0);
  }

  /** CEILING rounding to cents never goes below the value and adds less
      than a cent. */
  lemma RoundCentsUpBounds(x: real)
    ensures x <= RoundCentsUp(x) < x + 0.01
  {
    CeilingUnitsBounds(x * 100.0);
  }

  /** A whole number of cents is left unchanged by rounding to cents. */
  lemma RoundCentsExact(x: real)
    requires IsCents(x)
    ensures RoundCents(x) == x
  {
    HalfUpUnitsOfInt(Floor(x * 100.0));
  }

  /** HALF_UP rounding to cents never reverses the order of two values. */
  lemma RoundCentsMonotonic(x1: real, x2: real)
    requires x1 <= x2
    ensures RoundCents(x1) <= RoundCents(x2)
  {
    HalfUpUnitsMonotonic(x1 * 100.0, x2 * 100.0);
  }

  /** HALF_UP rounding to four places never reverses the order of two values. */
  lemma RoundTenThousandthsMonotonic(x1: real, x2: real)
    requires x1 <= x2
    ensures RoundTenThousandths(x1) <= RoundTenThousandths(x2)
  {
    HalfUpUnitsMonotonic(x1 * 10000.0, x2 * 10000.0);
  }

  /** Zero is left at zero by every rounding. */
  lemma RoundZero()
    ensures RoundCents(0.0) == 0.0 && RoundCentsUp(0.0) == 0.0 && RoundTenThousandths(0.0) == 0.0
  {
    FloorBounds(0.5);
    FloorBounds(0.0);
  }

  lemma MulMonotonic(a: real, b: real, p: real)
    requires a <= b && p > 0.0
    ensures a * p <= b * p
  {
  }

  lemma DivMonotonic(a: real, b: real, p: real)
    requires a <= b && p > 0.0
    ensures a / p <= b / p
  {
  }
}

/** Java's fixed-width integer arithmetic, where the modelled code relies on it. */
module JavaInts {

  /** Java's `(int)` cast of a `long`: keeps the low 32 bits, two's complement. */
  function ToInt32(x: int): (r: int)
    ensures -0x8000_0000 <= r < 0x8000_0000
    ensures -0x8000_0000 <= x < 0x8000_0000 ==> r == x
  {
    var m := x % 0x1_0000_0000;
    if m >= 0x8000_0000 then m - 0x1_0000_0000 else m
  }

  /** Java `long` arithmetic: the exact result wrapped to 64 bits. */
  function ToInt64(x: int): (r: int)
    ensures -0x8000_0000_0000_0000 <= r < 0x8000_0000_0000_0000
    ensures -0x8000_0000_0000_0000 <= x < 0x8000_0000_0000_0000 ==> r == x
  {
    var m := x % 0x1_0000_0000_0000_0000;
    if m >= 0x8000_0000_0000_0000 then m - 0x1_0000_0000_0000_0000 else m
  }
}
