/**
 * The ranges PlayerState's traversal quantizes with, in src/protocol/types/PlayerState.js, and what
 * the quantizer promises for each of them.
 */
module PlayerRanges {
  import opened Octets
  import opened Quantizer

  /** Math.fround(Math.PI) */
  const PI: real := 13176795.0 / 4194304.0

  const ROTATION := Range(-PI, PI, 0.0, 6)
  const VELOCITY := Range(-150.0, 150.0, 0.0, 8)
  const DIRECTION := Range(-1.0, 1.0, 0.0, 5)
  const WIDE_DIRECTION := Range(-1.5, 1.5, 0.0, 5)
  const MOVE_SCALAR := Range(-20.0, 20.0, 0.0, 5)
  const FRAME_TIME := Range(0.0, 3.0, 0.0, 12)
  const FRAME_WEIGHT := Range(0.0, 1.0, 0.0, 3)
  const FRAME_POSITION := Range(-25.0, 20.0, 0.0, 12)
  const NORMAL := Range(-1.0, 1.0, 0.0, 6)
  const TANGENT := Range(-1.0, 1.0, 0.0, 8)
  const FAR_POINT := Range(-4.0, 4.0, 0.0, 8)
  const COARSE_POINT := Range(-2.0, 2.0, 0.0, 5)
  const FINE_POINT := Range(-2.0, 2.0, 0.0, 8)
  const QUEUE_TIME := Range(0.0, 3.0, 0.0, 9)
  const UNIT4 := Range(0.0, 1.0, 0.0, 4)
  const UNIT5 := Range(0.0, 1.0, 0.0, 5)
  const UNIT6 := Range(0.0, 1.0, 0.0, 6)
  const UNIT8 := Range(0.0, 1.0, 0.0, 8)
  const ENERGY_VELOCITY := Range(-4.0, 4.0, 0.0, 8)
  const CHARGE := Range(0.0, 10.0, 0.0, 5)
  const ENERGY_SCALAR := Range(-1.0, 2.0, 0.0, 16)
  const ENERGY_FACTOR := Range(1.0, 2.0, 1.5, 8)
  const OFFSET_5198 := Range(0.0, 50.0, 0.0, 8)
  const OUTFIT_SCALAR0 := Range(-3.0, 3.0, 0.0, 8)
  const OUTFIT_SCALAR1 := Range(-5.0, 3.0, 0.0, 8)
  const SOCIAL_SCALAR := Range(0.0, 2.0, 0.0, 9)
  const SLOT_POSITION := Range(-4.0, 4.0, 0.0, 6)

  /** The current energy, up to the maximum read just before it. */
  function CurrentEnergy(maxEnergy: int): Range {
    Range(-3.0, maxEnergy as real, 0.0, 14)
  }

  function Around(rotation: real): Range {
    Range(-PI, PI, rotation, 10)
  }

  /** A body key frame's angle, around a rotation that was itself a 6-bit code. */
  function Angle(rotation: int): Range
    requires 0 <= rotation <= 63
  {
    Around(Decode(ROTATION, rotation))
  }

  function Fixed(): seq<Range> {
    [ROTATION, VELOCITY, DIRECTION, WIDE_DIRECTION, MOVE_SCALAR, FRAME_TIME, FRAME_WEIGHT, FRAME_POSITION,
     NORMAL, TANGENT, FAR_POINT, COARSE_POINT, FINE_POINT, QUEUE_TIME, UNIT4, UNIT5, UNIT6, UNIT8,
     ENERGY_VELOCITY, CHARGE, ENERGY_SCALAR, ENERGY_FACTOR, OFFSET_5198,
     OUTFIT_SCALAR0, OUTFIT_SCALAR1, SOCIAL_SCALAR, SLOT_POSITION]
  }

  /** q is one of the ranges of the traversal. */
  predicate Used(q: Range) {
    || q in Fixed()
    || (exists n :: 0 <= n <= 14 && q == CurrentEnergy(n))
    || (exists code :: 0 <= code <= 63 && q == Angle(code))
  }

  /** Half the step of v's side of the pivot; 0 on a side without steps. */
  function SideStep(q: Range, v: real): real
    requires Valid(q)
  {
    if v < q.pivot then if PivotCode(q) == 0 then 0.0 else HalfStep(q.pivot - q.min, PivotCode(q))
    else if UpperLevels(q) == 0 then 0.0
    else HalfStep(q.max - q.pivot, UpperLevels(q))
  }

  /** Three bits or more, and a pivot at the minimum or at least a seventh of the way up. */
  predicate Roomy(q: Range) {
    && q.min <= q.pivot <= q.max && q.min < q.max && q.bits >= 3
    && (q.pivot == q.min || 7.0 * (q.pivot - q.min) >= q.max - q.min)
  }

  lemma {:induction false} EightOrMore(n: nat)
    requires n >= 3
    ensures Pow2(n) >= 8
  {
    if n > 3 {
      EightOrMore(n - 1);
    } else {
      assert Pow2(3) == 8;
    }
  }

  lemma ScaledAtLeastOne(a: real, n: real, b: real)
    requires b > 0.0 && n >= 7.0 && 7.0 * a >= b
    ensures Scaled(a, n, b) >= 1.0
  {
    var d := a * n / b;
    DivTimes(a * n, b);
    assert (n - 7.0) * a >= 0.0;
    assert a * n == 7.0 * a + (n - 7.0) * a;
    if d < 1.0 {
      MulMonoStrict(d, 1.0, b);
    }
  }

  lemma ScaledBelowTop(a: real, n: real, b: real)
    requires 0.0 <= a < b && n > 0.0
    ensures Scaled(a, n, b) < n
  {
    var d := a * n / b;
    DivTimes(a * n, b);
    assert b * n == a * n + (b - a) * n;
    assert (b - a) * n > 0.0;
    assert n * b == b * n;
    if d >= n {
      MulMono(n, d, b);
    }
  }

  lemma PivotCodeAtLeastOne(q: Range)
    requires Valid(q) && Levels(q) >= 7 && 7.0 * (q.pivot - q.min) >= q.max - q.min
    ensures PivotCode(q) >= 1
  {
    hide Pow2, Levels, Scaled;
    ScaledAtLeastOne(q.pivot - q.min, Levels(q) as real, q.max - q.min);
  }

  /** Such a pivot has a code of its own, or is the minimum. */
  lemma RoomyIsExact(q: Range)
    requires Roomy(q)
    ensures Valid(q) && PivotIsExact(q)
  {
    EightOrMore(q.bits);
    hide Pow2;
    if q.pivot != q.min {
      assert Levels(q) >= 7;
      PivotCodeAtLeastOne(q);
    }
  }

  lemma TopIsPivot(q: Range)
    requires Valid(q) && UpperLevels(q) == 0
    ensures q.pivot == q.max
  {
    if q.pivot < q.max {
      ScaledBelowTop(q.pivot - q.min, Levels(q) as real, q.max - q.min);
    }
  }

  /** With an exact pivot every value of the range decodes to within half a step of its side. */
  lemma WithinHalfStep(q: Range, v: real)
    requires Valid(q) && PivotIsExact(q) && q.min <= v <= q.max
    ensures Distance(Decode(q, Encode(q, v)), v) <= SideStep(q, v)
  {
    if v < q.pivot {
      ErrorBelow(q, v);
    } else if UpperLevels(q) > 0 {
      ErrorAbove(q, v);
    } else {
      TopIsPivot(q);
      DecodedTop(q);
    }
  }

  lemma DecodedTop(q: Range)
    requires Valid(q) && UpperLevels(q) == 0 && q.pivot == q.max
    ensures Decode(q, Encode(q, q.max)) == q.max
  {
    hide Frac, Step;
    CodesInRange(q, q.max);
    CodeAtTop(q);
    StepEnds(q.pivot - q.min, PivotCode(q));
  }

  lemma CodeAtTop(q: Range)
    requires Valid(q) && UpperLevels(q) == 0 && q.pivot == q.max
    ensures Encode(q, q.max) == PivotCode(q) && PivotCode(q) == Levels(q)
  {
    hide Frac, Step;
  }

  lemma FixedAreExact(q: Range)
    requires q in Fixed()
    ensures Valid(q) && PivotIsExact(q)
  {
    assert Roomy(q);
    RoomyIsExact(q);
  }

  lemma EnergyIsExact(n: int)
    requires 0 <= n <= 14
    ensures Valid(CurrentEnergy(n)) && PivotIsExact(CurrentEnergy(n))
  {
    RoomyIsExact(CurrentEnergy(n));
  }

  /** A rotation decoded from a 6-bit code is the minimum or far enough above it. */
  lemma AngleIsExact(code: int)
    requires 0 <= code <= 63
    ensures Valid(ROTATION) && Levels(ROTATION) == 63
    ensures Valid(Angle(code)) && PivotIsExact(Angle(code))
  {
    assert Pow2(6) == 64;
    hide Pow2;
    DecodedPlace(ROTATION, code);
    FirstRotations();
    if code > 1 {
      DecodeStrictlyMonotone(ROTATION, 1, code);
    }
    EnoughAboveIsExact(Angle(code));
  }

  lemma FirstRotations()
    ensures Valid(ROTATION) && Decode(ROTATION, 0) == -PI
    ensures Decode(ROTATION, 1) == -PI + PI / 31.0
  {
    assert Pow2(6) == 64;
    hide Pow2;
    assert PivotCode(ROTATION) == 31;
  }

  /** In ten bits a thirty-first of half the range is sixteen levels. */
  lemma EnoughAboveIsExact(q: Range)
    requires q.bits == 10 && q.min == -PI && q.max == PI && q.min <= q.pivot <= q.max
    requires q.pivot == q.min || q.pivot >= -PI + PI / 31.0
    ensures Valid(q) && PivotIsExact(q)
  {
    assert Pow2(10) == 1024 by { assert Pow2(5) == 32; }
    hide Pow2;
    if q.pivot != q.min {
      var a, b := q.pivot - q.min, q.max - q.min;
      assert a * 1023.0 >= 1.0 * b;
      DivBounds(a * 1023.0, b, 1.0);
    }
  }

  /**
   * Whatever the traversal quantizes, every value of the range decodes to within half the step of
   * its side of the pivot.
   */
  lemma EveryLeafWithinHalfStep(q: Range, v: real)
    requires Used(q) && q.min <= v <= q.max
    ensures Valid(q) && PivotIsExact(q)
    ensures Distance(Decode(q, Encode(q, v)), v) <= SideStep(q, v)
  {
    hide Fixed, PivotIsExact, Encode, Decode, SideStep, Valid;
    if q in Fixed() {
      FixedAreExact(q);
    } else if n :| 0 <= n <= 14 && q == CurrentEnergy(n) {
      EnergyIsExact(n);
    } else {
      var code :| 0 <= code <= 63 && q == Angle(code);
      AngleIsExact(code);
    }
    WithinHalfStep(q, v);
  }

  // ----- Positions relative to other fields -----

  /** One coordinate written as its distance from a base that both ends have. */
  function Offset(q: Range, base: real, v: real): real
    requires Valid(q)
  {
    base + Decode(q, Encode(q, v - base))
  }

  /** A key frame's point: the writer measures it from the position as given, the reader from the position it read. */
  function PointRead(p: Range, q: Range, base: real, position: real, point: real): real
    requires Valid(p) && Valid(q)
  {
    Offset(p, base, position) + Decode(q, Encode(q, point - position))
  }

  /** So a point is off by its own rounding and the position's, and by no more. */
  lemma PointWithinBothHalfSteps(p: Range, q: Range, base: real, position: real, point: real)
    requires Used(p) && Used(q) && p.min <= position - base <= p.max && q.min <= point - position <= q.max
    ensures Valid(p) && PivotIsExact(p) && Valid(q) && PivotIsExact(q)
    ensures Distance(Offset(p, base, position), position) <= SideStep(p, position - base)
    ensures Distance(PointRead(p, q, base, position, point), point) <=
            SideStep(p, position - base) + SideStep(q, point - position)
  {
    hide Encode, Decode, SideStep, PivotIsExact, Used, Valid;
    EveryLeafWithinHalfStep(p, position - base);
    EveryLeafWithinHalfStep(q, point - position);
  }

  /** A range that would break the bound; the traversal has none like it. */
  lemma InexactRange()
    ensures var q := Range(0.0, 1.0, 0.1, 1);
            Valid(q) && UpperLevels(q) > 0 && !PivotIsExact(q) && !Used(q)
  {
    var q := Range(0.0, 1.0, 0.1, 1);
    assert Pow2(1) == 2;
    assert !PivotIsExact(q);
    if Used(q) {
      EveryLeafWithinHalfStep(q, 0.5);
    }
  }
}
