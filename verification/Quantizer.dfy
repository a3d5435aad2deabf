/**
 * The pivot quantizer: encodeQuantized in src/protocol/binary/BinaryWriter.js and decodeQuantized
 * in src/protocol/binary/BinaryReader.js, over the reals.
 */
module Quantizer {
  import opened Octets

  datatype Range = Range(min: real, max: real, pivot: real, bits: nat)

  predicate Valid(q: Range) {
    q.min <= q.pivot <= q.max && q.min < q.max && q.bits >= 1
  }

  function Levels(q: Range): (n: int)
    requires Valid(q)
    ensures n >= 1
  {
    Pow2(q.bits) - 1
  }

  /** x on a side of the given width, measured in n codes. */
  function Frac(x: real, width: real, n: int): real
    requires width != 0.0
  {
    x / width * n as real
  }

  /** The value of a code on a side of the given width with n codes. */
  function Step(width: real, code: int, n: int): real
    requires n != 0
  {
    width * code as real / n as real
  }

  // ----- Real arithmetic -----

  lemma DivTimes(a: real, b: real)
    requires b != 0.0
    ensures a / b * b == a
  {}

  lemma DivBounds(a: real, b: real, c: real)
    requires b > 0.0
    ensures a <= c * b ==> a / b <= c
    ensures a >= c * b ==> a / b >= c
    ensures a < c * b ==> a / b < c
    ensures a > c * b ==> a / b > c
  {
    var x := a / b;
    DivTimes(a, b);
    assert (x - c) * b == a - c * b;
  }

  lemma MulMono(a: real, b: real, c: real)
    requires a <= b && c >= 0.0
    ensures a * c <= b * c
  {}

  lemma MulMonoStrict(a: real, b: real, c: real)
    requires a < b && c > 0.0
    ensures a * c < b * c
  {}

  lemma Cancel(x: real, y: real, m: real)
    requires m > 0.0 && x * m <= y * m
    ensures x <= y
  {}

  lemma FracMono(x: real, y: real, width: real, n: int)
    requires x <= y && width > 0.0 && n >= 0
    ensures Frac(x, width, n) <= Frac(y, width, n)
  {
    DivTimes(y, width);
    DivBounds(x, width, y / width);
    MulMono(x / width, y / width, n as real);
  }

  lemma FracEnds(width: real, n: int)
    requires width > 0.0
    ensures Frac(0.0, width, n) == 0.0 && Frac(width, width, n) == n as real
  {
    DivBounds(0.0, width, 0.0);
    DivBounds(width, width, 1.0);
  }

  /** A point of a side lies between its code 0 and its code n. */
  lemma FracBounds(x: real, width: real, n: int)
    requires 0.0 <= x <= width && width > 0.0 && n >= 0
    ensures 0.0 <= Frac(x, width, n) <= n as real
  {
    FracEnds(width, n);
    FracMono(0.0, x, width, n);
    FracMono(x, width, width, n);
  }

  lemma StepEnds(width: real, n: int)
    requires n >= 1
    ensures Step(width, 0, n) == 0.0 && Step(width, n, n) == width
  {
    DivBounds(0.0, n as real, 0.0);
    DivBounds(width * n as real, n as real, width);
  }

  lemma StepMono(width: real, c: int, d: int, n: int)
    requires width > 0.0 && c < d && n >= 1
    ensures Step(width, c, n) < Step(width, d, n)
  {
    MulMonoStrict(c as real, d as real, width);
    DivTimes(width * d as real, n as real);
    DivBounds(width * c as real, n as real, Step(width, d, n));
  }

  /** Step and Frac are inverse. */
  lemma FracOfStep(width: real, c: int, n: int)
    requires width > 0.0 && n >= 1
    ensures Frac(Step(width, c, n), width, n) == c as real
  {
    var m := n as real;
    DivTimes(width * c as real, m);
    var y := Step(width, c, n) / width;
    DivTimes(Step(width, c, n), width);
    assert width * (y * m) == width * c as real;
    Cancel(y * m, c as real, width);
    Cancel(c as real, y * m, width);
  }

  function Distance(a: real, b: real): real {
    if a < b then b - a else a - b
  }

  function HalfStep(width: real, n: int): real
    requires n >= 1
  {
    width / (2 * n) as real
  }

  lemma HalfStepIsHalf(width: real, n: int)
    requires n >= 1
    ensures 2.0 * HalfStep(width, n) * n as real == width
  {
    DivTimes(width, (2 * n) as real);
  }

  /** Rounding to the nearest code moves a point by at most half a step. */
  lemma RoundingMoves(width: real, x: real, n: int, code: int)
    requires width > 0.0 && n >= 1
    requires -0.5 <= code as real - Frac(x, width, n) <= 0.5
    ensures Distance(Step(width, code, n), x) <= HalfStep(width, n)
  {
    var m, c, h := n as real, code as real, HalfStep(width, n);
    var y, f := Step(width, code, n), x / width;
    HalfStepIsHalf(width, n);
    DivTimes(width * c, m);
    DivTimes(x, width);
    assert (y - x) * m == (c - f * m) * width;
    MulMono(c - f * m, 0.5, width);
    MulMono(-0.5, c - f * m, width);
    Cancel(y - x, h, m);
    assert (x - y) * m == -((y - x) * m);
    Cancel(x - y, h, m);
  }

  // ----- The codec -----

  /** A distance a of b, in n levels. */
  function Scaled(a: real, n: real, b: real): real
    requires b != 0.0
  {
    a * n / b
  }

  lemma ScaledBounds(a: real, n: real, b: real)
    requires 0.0 <= a <= b && b > 0.0 && n >= 0.0
    ensures 0.0 <= Scaled(a, n, b) <= n
    ensures a == 0.0 ==> Scaled(a, n, b) == 0.0
    ensures a == b ==> Scaled(a, n, b) == n
  {
    MulMono(0.0, a, n);
    MulMono(a, b, n);
    DivBounds(a * n, b, 0.0);
    DivBounds(a * n, b, n);
  }

  /** Math.trunc of a number that is never negative here. */
  function PivotCode(q: Range): (p: int)
    requires Valid(q)
    ensures 0 <= p <= Levels(q)
    ensures q.pivot == q.min ==> p == 0
    ensures q.pivot == q.max ==> p == Levels(q)
  {
    var n := Levels(q) as real;
    var a, b := q.pivot - q.min, q.max - q.min;
    ScaledBounds(a, n, b);
    Scaled(a, n, b).Floor
  }

  function UpperLevels(q: Range): (u: int)
    requires Valid(q)
    ensures u >= 0
  {
    Levels(q) - PivotCode(q)
  }

  function Clamp(q: Range, v: real): real {
    if v < q.min then q.min else if v > q.max then q.max else v
  }

  /** Position of a clamped value, in codes. */
  function Place(q: Range, v: real): real
    requires Valid(q)
  {
    if v < q.pivot && q.pivot > q.min then Frac(v - q.min, q.pivot - q.min, PivotCode(q))
    else if UpperLevels(q) == 0 || q.max == q.pivot then PivotCode(q) as real
    else PivotCode(q) as real + Frac(v - q.pivot, q.max - q.pivot, UpperLevels(q))
  }

  function Encode(q: Range, v: real): int
    requires Valid(q)
  {
    (0.5 + Place(q, Clamp(q, v))).Floor
  }

  function Decode(q: Range, code: int): real
    requires Valid(q)
  {
    var p, u := PivotCode(q), UpperLevels(q);
    if code <= p then if p == 0 then q.min else q.min + Step(q.pivot - q.min, code, p)
    else if u == 0 then q.max
    else q.pivot + Step(q.max - q.pivot, code - p, u)
  }

  // ----- Laws -----

  lemma PlaceBounds(q: Range, v: real)
    requires Valid(q) && q.min <= v <= q.max
    ensures 0.0 <= Place(q, v) <= Levels(q) as real
    ensures v < q.pivot ==> Place(q, v) <= PivotCode(q) as real
    ensures v >= q.pivot ==> Place(q, v) >= PivotCode(q) as real
  {
    hide Frac, PivotCode, Levels;
    if v < q.pivot {
      FracBounds(v - q.min, q.pivot - q.min, PivotCode(q));
    } else if UpperLevels(q) != 0 && q.max != q.pivot {
      FracBounds(v - q.pivot, q.max - q.pivot, UpperLevels(q));
    }
  }

  /** Every code fits the field's bits. */
  lemma CodesInRange(q: Range, v: real)
    requires Valid(q)
    ensures 0 <= Encode(q, v) <= Pow2(q.bits) - 1
  {
    hide Place, PivotCode;
    PlaceBounds(q, Clamp(q, v));
  }

  lemma PlaceMonotone(q: Range, a: real, b: real)
    requires Valid(q) && q.min <= a <= b <= q.max
    ensures Place(q, a) <= Place(q, b)
  {
    hide Frac, PivotCode, Levels;
    PlaceBounds(q, a);
    PlaceBounds(q, b);
    if b < q.pivot {
      FracMono(a - q.min, b - q.min, q.pivot - q.min, PivotCode(q));
    } else if a >= q.pivot && UpperLevels(q) != 0 && q.max != q.pivot {
      FracMono(a - q.pivot, b - q.pivot, q.max - q.pivot, UpperLevels(q));
    }
  }

  /** A larger value never gets a smaller code. */
  lemma EncodeMonotone(q: Range, v: real, w: real)
    requires Valid(q) && v <= w
    ensures Encode(q, v) <= Encode(q, w)
  {
    hide Place;
    PlaceMonotone(q, Clamp(q, v), Clamp(q, w));
  }

  /** A decoded code lies in the range, on the code's side, exactly at the code's place. */
  lemma DecodedPlace(q: Range, code: int)
    requires Valid(q) && 0 <= code <= Levels(q)
    ensures q.min <= Decode(q, code) <= q.max
    ensures Place(q, Decode(q, code)) == code as real
  {
    hide Frac, Step, PivotCode, Levels;
    var p, u := PivotCode(q), UpperLevels(q);
    if code > p {
      StepEnds(q.max - q.pivot, u);
      StepMono(q.max - q.pivot, 0, code - p, u);
      if code - p < u {
        StepMono(q.max - q.pivot, code - p, u, u);
      }
      FracOfStep(q.max - q.pivot, code - p, u);
    } else if p > 0 {
      StepEnds(q.pivot - q.min, p);
      if code < p {
        StepMono(q.pivot - q.min, code, p, p);
        if code > 0 {
          StepMono(q.pivot - q.min, 0, code, p);
        }
        FracOfStep(q.pivot - q.min, code, p);
      } else if q.max != q.pivot {
        FracEnds(q.max - q.pivot, u);
      }
    } else if q.min == q.pivot {
      FracEnds(q.max - q.pivot, u);
    } else {
      FracEnds(q.pivot - q.min, p);
    }
  }

  /** Encoding a decoded code returns the code. */
  lemma CodeSurvives(q: Range, code: int)
    requires Valid(q) && 0 <= code <= Levels(q)
    ensures Encode(q, Decode(q, code)) == code
  {
    hide Place, Decode, Levels;
    DecodedPlace(q, code);
  }

  /** Different codes decode to different values, in order. */
  lemma DecodeStrictlyMonotone(q: Range, c: int, d: int)
    requires Valid(q) && 0 <= c < d <= Levels(q)
    ensures Decode(q, c) < Decode(q, d)
  {
    hide Encode, Decode, Levels;
    CodeSurvives(q, c);
    CodeSurvives(q, d);
    if Decode(q, d) <= Decode(q, c) {
      EncodeMonotone(q, Decode(q, d), Decode(q, c));
    }
  }

  // ----- Rounding error -----

  /** Below the pivot, with at least one level there, the error is at most half a step. */
  lemma ErrorBelow(q: Range, v: real)
    requires Valid(q) && q.min <= v < q.pivot && PivotCode(q) > 0
    ensures Distance(Decode(q, Encode(q, v)), v) <= HalfStep(q.pivot - q.min, PivotCode(q))
  {
    hide Frac, Step, PivotCode, Levels, HalfStep;
    PlaceBounds(q, v);
    RoundingMoves(q.pivot - q.min, v - q.min, PivotCode(q), Encode(q, v));
  }

  /**
   * At or above the pivot the half-step bound needs the pivot's own code to decode to the pivot.
   * It does not when truncation gives a pivot above min the code 0, which decodes to min.
   */
  predicate PivotIsExact(q: Range)
    requires Valid(q)
  {
    PivotCode(q) > 0 || q.pivot == q.min
  }

  lemma ErrorAbove(q: Range, v: real)
    requires Valid(q) && q.pivot <= v <= q.max && UpperLevels(q) > 0 && PivotIsExact(q)
    ensures Distance(Decode(q, Encode(q, v)), v) <= HalfStep(q.max - q.pivot, UpperLevels(q))
  {
    hide Frac, Step, PivotCode, Levels, HalfStep;
    var p, code := PivotCode(q), Encode(q, v);
    PlaceBounds(q, v);
    RoundingMoves(q.max - q.pivot, v - q.pivot, UpperLevels(q), code - p);
    if code == p {
      StepEnds(q.max - q.pivot, UpperLevels(q));
      if p > 0 {
        StepEnds(q.pivot - q.min, p);
      }
    }
  }

  /** A value above the pivot whose error exceeds half a step h. */
  function Worst(q: Range, h: real): real {
    if 2.0 * h >= q.pivot - q.min then h + (q.pivot + q.min) / 2.0 else q.pivot
  }

  /** Less than half a step above the pivot is less than half a code. */
  lemma UnderHalfCode(x: real, width: real, n: int)
    requires width > 0.0 && n >= 1 && 0.0 <= x < HalfStep(width, n)
    ensures 0.0 <= Frac(x, width, n) < 0.5
    ensures x <= width
  {
    var f, h, m := x / width, HalfStep(width, n), n as real;
    HalfStepIsHalf(width, n);
    DivTimes(x, width);
    DivBounds(x, width, 0.0);
    MulMono(0.0, f, m);
    var g := f * m;
    assert g * width == x * m;
    ScaledBack(g, x, width, h, m);
    MulMono(1.0, m, 2.0 * h);
  }

  lemma ScaledBack(g: real, x: real, width: real, h: real, m: real)
    requires g * width == x * m && 2.0 * h * m == width && 0.0 <= x < h && m > 0.0
    ensures g < 0.5
  {
    MulMonoStrict(x, h, m);
    if g >= 0.5 {
      MulMonoStrict(0.0, h, m);
      MulMono(0.5, g, width);
    }
  }

  lemma InexactPivotFails(q: Range)
    requires Valid(q) && UpperLevels(q) > 0 && !PivotIsExact(q)
    ensures var h := HalfStep(q.max - q.pivot, UpperLevels(q));
            var v := Worst(q, h);
            q.pivot <= v <= q.max && Distance(Decode(q, Encode(q, v)), v) > h
  {
    hide Frac, Step, PivotCode, Levels, HalfStep;
    var a, u := q.max - q.pivot, UpperLevels(q);
    var h := HalfStep(a, u);
    HalfStepIsHalf(a, u);
    assert h > 0.0 by {
      if h <= 0.0 {
        MulMono(h, 0.0, u as real);
      }
    }
    UnderHalfCode(Worst(q, h) - q.pivot, a, u);
  }

  /** The upper-side error bound holds for every value exactly when the pivot is exact. */
  lemma ErrorAboveIffExact(q: Range)
    requires Valid(q) && UpperLevels(q) > 0
    ensures (forall v :: q.pivot <= v <= q.max ==>
              Distance(Decode(q, Encode(q, v)), v) <= HalfStep(q.max - q.pivot, UpperLevels(q)))
            <==> PivotIsExact(q)
  {
    if PivotIsExact(q) {
      forall v | q.pivot <= v <= q.max
        ensures Distance(Decode(q, Encode(q, v)), v) <= HalfStep(q.max - q.pivot, UpperLevels(q))
      {
        ErrorAbove(q, v);
      }
    } else {
      InexactPivotFails(q);
    }
  }
}
