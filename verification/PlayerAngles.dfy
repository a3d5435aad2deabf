/**
 * The angle of a key frame: bodyKeyFrame in src/protocol/types/PlayerState.js. The writer quantizes
 * it around the frame's rotation as given, the reader around the rotation it decoded, which was
 * itself quantized to six bits.
 */
module PlayerAngles {
  import opened Octets
  import opened Quantizer
  import opened PlayerRanges

  // ----- The uniform grid -----

  /** The even step of ten bits over a full turn. */
  const EVEN := 2.0 * PI / 1023.0

  function At(level: real): real {
    -PI + EVEN * level
  }

  /** The inverse of At. */
  function Level(v: real): real {
    (v + PI) / EVEN
  }

  predicate OnGrid(v: real) {
    Level(v) == Level(v).Floor as real
  }

  predicate InTurn(v: real) {
    -PI <= v <= PI
  }

  lemma LevelIs(v: real)
    ensures At(Level(v)) == v
    ensures InTurn(v) <==> 0.0 <= Level(v) <= 1023.0
  {}

  lemma AtIs(level: real)
    ensures Level(At(level)) == level
  {}

  lemma TenBits(r: real)
    requires InTurn(r)
    ensures Valid(Around(r)) && Levels(Around(r)) == 1023
    ensures PivotCode(Around(r)) == Level(r).Floor
  {
    assert Pow2(10) == 1024 by { assert Pow2(5) == 32; }
    hide Pow2;
    assert Scaled(r + PI, 1023.0, 2.0 * PI) == Level(r);
  }

  /** The writer's own range has an exact pivot exactly from the first level of the grid on, or at the start. */
  lemma WriterExactIff(r: real)
    requires InTurn(r)
    ensures Valid(Around(r)) && (PivotIsExact(Around(r)) <==> r == -PI || r >= At(1.0))
  {
    TenBits(r);
  }

  // ----- What the reader gets -----

  /** The rotation a reader finds: the writer's, quantized to six bits. */
  function Turned(rotation: real): real {
    Decode(ROTATION, Encode(ROTATION, rotation))
  }

  function AngleRead(rotation: real, angle: real): real
    requires InTurn(rotation) && InTurn(Turned(rotation))
  {
    Decode(Around(Turned(rotation)), Encode(Around(rotation), angle))
  }

  lemma TurnedInRange(rotation: real)
    ensures 0 <= Encode(ROTATION, rotation) <= 63 && InTurn(Turned(rotation))
  {
    assert Pow2(6) == 64;
    hide Pow2;
    CodesInRange(ROTATION, rotation);
    DecodedPlace(ROTATION, Encode(ROTATION, rotation));
  }

  lemma ReaderIsExact(rotation: real)
    requires InTurn(rotation)
    ensures InTurn(Turned(rotation)) && Valid(Around(Turned(rotation))) && PivotIsExact(Around(Turned(rotation)))
  {
    TurnedInRange(rotation);
    AngleIsExact(Encode(ROTATION, rotation));
  }

  /** The two ends quantize around the same rotation exactly when it is one that a reader can return. */
  lemma PivotsAgreeIff(rotation: real)
    ensures Turned(rotation) == rotation <==> exists code :: 0 <= code <= 63 && Decode(ROTATION, code) == rotation
  {
    TurnedInRange(rotation);
    assert Pow2(6) == 64;
    hide Pow2, Encode, Decode;
    if code :| 0 <= code <= 63 && Decode(ROTATION, code) == rotation {
      CodeSurvives(ROTATION, code);
    }
  }

  // ----- No angle is off by a step and a half -----

  lemma Ratio(a: real, b: real, k: real)
    requires b != 0.0 && k != 0.0
    ensures (a * k) / (b * k) == a / b
  {
    DivTimes(a, b);
    DivTimes(a * k, b * k);
    var x, y := a / b, (a * k) / (b * k);
    assert (y - x) * (b * k) == 0.0;
  }

  /** Below the pivot, a place is at most the pivot's fraction under the grid's. */
  lemma LowerPlace(g: real, a: real, p: real)
    requires 0.0 <= g <= a && a > 0.0 && p <= a < p + 1.0
    ensures g - 1.0 < g / a * p <= g
  {
    var x := g / a;
    DivTimes(g, a);
    DivBounds(g, a, 0.0);
    DivBounds(g, a, 1.0);
    assert x * a == g;
    MulMono(0.0, a - p, x);
    assert x * p == g - (a - p) * x;
    if x > 0.0 {
      MulMonoStrict(a - p, 1.0, x);
    }
  }

  lemma UpperPlace(g: real, a: real, p: real)
    requires a <= g <= 1023.0 && a < 1023.0 && p <= a < p + 1.0
    ensures g - 1.0 < p + (g - a) / (1023.0 - a) * (1023.0 - p) <= g
  {
    var b, d := 1023.0 - a, g - a;
    var x := d / b;
    DivTimes(d, b);
    DivBounds(d, b, 0.0);
    DivBounds(d, b, 1.0);
    assert x * b == d;
    var w := a - p;
    Distributes(x, b, w);
    assert 1023.0 - p == b + w;
    MulMono(x, 1.0, w);
    MulMono(0.0, x, w);
  }

  lemma Distributes(x: real, b: real, w: real)
    ensures x * (b + w) == x * b + x * w
  {}

  lemma LowerFrac(r: real, v: real, p: int)
    requires InTurn(v) && v < r && p as real <= Level(r) < p as real + 1.0
    ensures Level(v) - 1.0 < Frac(v + PI, r + PI, p) <= Level(v)
  {
    var g, a := Level(v), Level(r);
    LowerPlace(g, a, p as real);
    Ratio(g, a, EVEN);
    assert g * EVEN == v + PI && a * EVEN == r + PI;
  }

  lemma UpperFrac(r: real, v: real, p: int)
    requires InTurn(v) && r <= v && r < PI && p as real <= Level(r) < p as real + 1.0
    ensures Level(v) - 1.0 < p as real + Frac(v - r, PI - r, 1023 - p) <= Level(v)
  {
    var g, a := Level(v), Level(r);
    UpperPlace(g, a, p as real);
    Ratio(g - a, 1023.0 - a, EVEN);
    assert (g - a) * EVEN == v - r && (1023.0 - a) * EVEN == PI - r;
  }

  /** A place and the level on the grid differ by less than one. */
  lemma PlaceNearGrid(r: real, v: real)
    requires InTurn(r) && InTurn(v)
    ensures Valid(Around(r)) && Level(v) - 1.0 < Place(Around(r), v) <= Level(v)
  {
    TenBits(r);
    hide Pow2, PivotCode, Levels, Frac;
    if v < r {
      LowerFrac(r, v, PivotCode(Around(r)));
    } else if r < PI {
      UpperFrac(r, v, PivotCode(Around(r)));
    }
  }

  /** For every rotation, exact or not: an angle comes back within one and a half even steps. */
  lemma AngleErrorBound(rotation: real, angle: real)
    requires InTurn(rotation) && InTurn(angle)
    ensures InTurn(Turned(rotation)) && Distance(AngleRead(rotation, angle), angle) < 1.5 * EVEN
  {
    ReaderIsExact(rotation);
    TenBits(rotation);
    TenBits(Turned(rotation));
    hide Pow2, PivotCode, Levels, Place, PivotIsExact, Turned;
    var code := Encode(Around(rotation), angle);
    PlaceNearGrid(rotation, angle);
    PlaceBounds(Around(rotation), angle);
    var read := Decode(Around(Turned(rotation)), code);
    DecodedPlace(Around(Turned(rotation)), code);
    PlaceNearGrid(Turned(rotation), read);
    assert Level(angle) - 1.5 < code as real <= Level(angle) + 0.5;
    assert Level(read) - 1.0 < code as real <= Level(read);
  }

  /** The bound cannot be lowered to 1.498 steps: of a rotation just under a level, an angle half a step above it. */
  const LATE := At(200.999)
  const PAST := At(201.4983)

  lemma BoundIsNearlyReached()
    ensures InTurn(LATE) && InTurn(PAST) && Turned(LATE) == At(198.0) && AngleRead(LATE, PAST) == At(200.0)
    ensures Valid(Around(LATE)) && PivotIsExact(Around(LATE))
    ensures Distance(AngleRead(LATE, PAST), PAST) > 1.498 * EVEN
    ensures Distance(AngleRead(LATE, PAST), PAST) > 3.0 * SideStep(Around(LATE), PAST)
  {
    LateTurns();
    LateCode();
    ReadFromLevel198();
  }

  lemma LateTurns()
    ensures Valid(ROTATION) && Encode(ROTATION, LATE) == 12 && Turned(LATE) == At(198.0)
  {
    assert Pow2(6) == 64;
    hide Pow2;
    assert PivotCode(ROTATION) == 31;
    assert Encode(ROTATION, LATE) == 12;
  }

  lemma LateCode()
    ensures Valid(Around(LATE)) && PivotCode(Around(LATE)) == 200
    ensures UpperLevels(Around(LATE)) == 823 && Encode(Around(LATE), PAST) == 200
  {
    TenBits(LATE);
    assert Level(LATE) == 200.999;
    hide Pow2, PivotCode, Levels;
    var place := Place(Around(LATE), PAST);
  }

  lemma ReadFromLevel198()
    ensures Valid(Around(At(198.0))) && Decode(Around(At(198.0)), 200) == At(200.0)
  {
    TenBits(At(198.0));
    assert Level(At(198.0)) == 198.0;
    hide Pow2, PivotCode, Levels;
  }

  // ----- Where a code's values end -----

  /** The x-th of n parts of a width. */
  function Part(width: real, x: real, n: int): real
    requires n >= 1
  {
    width * x / n as real
  }

  /** k whole steps of half step h. */
  function Steps(h: real, k: real): real {
    2.0 * h * k
  }

  /** The value below the pivot at place x. */
  function Below(q: Range, x: real): real
    requires Valid(q) && PivotCode(q) > 0
  {
    q.min + Part(q.pivot - q.min, x, PivotCode(q))
  }

  /** The value from the pivot up at place x. */
  function Above(q: Range, x: real): real
    requires Valid(q) && UpperLevels(q) > 0
  {
    q.pivot + Part(q.max - q.pivot, x - PivotCode(q) as real, UpperLevels(q))
  }

  lemma PartIs(width: real, x: real, n: int)
    requires width > 0.0 && n >= 1 && 0.0 <= x <= n as real
    ensures 0.0 <= Part(width, x, n) <= width && Frac(Part(width, x, n), width, n) == x
    ensures x < n as real ==> Part(width, x, n) < width
  {
    var m := n as real;
    var y := Part(width, x, n);
    DivTimes(width * x, m);
    MulMono(0.0, x, width);
    MulMono(x, m, width);
    DivBounds(width * x, m, 0.0);
    DivBounds(width * x, m, width);
    DivTimes(y, width);
    var z := y / width;
    assert z * width == y;
    assert (z * m) * width == x * width;
    Cancel(z * m, x, width);
    Cancel(x, z * m, width);
    if x < m {
      MulMonoStrict(x, m, width);
    }
  }

  lemma BelowPlace(q: Range, x: real)
    requires Valid(q) && PivotCode(q) > 0 && 0.0 <= x < PivotCode(q) as real
    ensures q.min <= Below(q, x) < q.pivot && Place(q, Below(q, x)) == x
  {
    PivotAboveMin(q);
    hide PivotCode, Levels, Part, Frac;
    PartIs(q.pivot - q.min, x, PivotCode(q));
  }

  lemma AbovePlace(q: Range, x: real)
    requires Valid(q) && UpperLevels(q) > 0 && PivotCode(q) as real <= x <= Levels(q) as real
    ensures q.pivot <= Above(q, x) <= q.max && Place(q, Above(q, x)) == x
  {
    PivotBelowMax(q);
    hide PivotCode, Levels, Part, Frac;
    PartIs(q.max - q.pivot, x - PivotCode(q) as real, UpperLevels(q));
  }

  lemma PivotAboveMin(q: Range)
    requires Valid(q) && PivotCode(q) > 0
    ensures q.pivot > q.min
  {}

  lemma PivotBelowMax(q: Range)
    requires Valid(q) && UpperLevels(q) > 0
    ensures q.pivot < q.max
  {}

  /** Values of one side at places x and y are as many steps apart. */
  lemma PartsApart(width: real, x: real, y: real, n: int)
    requires width > 0.0 && n >= 1
    ensures Part(width, x, n) - Part(width, y, n) == Steps(HalfStep(width, n), x - y)
  {
    var m, h := n as real, HalfStep(width, n);
    HalfStepIsHalf(width, n);
    DivTimes(width * x, m);
    DivTimes(width * y, m);
    var a, b := Part(width, x, n), Part(width, y, n);
    assert (a - b) * m == width * x - width * y;
    assert width * x - width * y == (2.0 * h * m) * (x - y);
    assert (a - b) * m == (2.0 * h * (x - y)) * m;
    Cancel(a - b, 2.0 * h * (x - y), m);
    Cancel(2.0 * h * (x - y), a - b, m);
  }

  lemma HalfStepPositive(width: real, n: int)
    requires width > 0.0 && n >= 1
    ensures HalfStep(width, n) > 0.0
  {
    DivBounds(width, (2 * n) as real, 0.0);
  }

  /** How far within a code's interval a value may be from the middle, given what a reader makes of the code. */
  function Slack(gap: real, h: real): (d: real)
    requires gap > 0.0 && h > 0.0
    ensures 0.0 < d <= 0.25 && 2.0 * h * d < gap
  {
    var d := gap / (4.0 * h);
    assert d * (4.0 * h) == gap by { DivTimes(gap, 4.0 * h); }
    assert d > 0.0 by { DivBounds(gap, 4.0 * h, 0.0); }
    if d <= 0.25 then d
    else
      assert 2.0 * h * 0.25 < gap by { MulMonoStrict(0.25, d, 4.0 * h); }
      0.25
  }

  /** The values of code c reach half a step down from c's own value, and up to any less than half a step. */
  lemma Reaches(q: Range, c: int, x: real, v: real)
    requires Valid(q) && q.min <= v <= q.max && Place(q, v) == x && c as real - 0.5 <= x < c as real + 0.5
    ensures Encode(q, v) == c
  {
    hide Place, PivotCode, Levels;
  }

  lemma DecodeBelow(q: Range, c: int)
    requires Valid(q) && 0 < c <= PivotCode(q)
    ensures Decode(q, c) == q.min + Part(q.pivot - q.min, c as real, PivotCode(q))
  {
    hide PivotCode;
  }

  lemma DecodeAbove(q: Range, c: int)
    requires Valid(q) && PivotIsExact(q) && PivotCode(q) <= c && UpperLevels(q) > 0
    ensures Decode(q, c) == q.pivot + Part(q.max - q.pivot, c as real - PivotCode(q) as real, UpperLevels(q))
  {
    var p := PivotCode(q);
    if c == p {
      StepEnds(q.max - q.pivot, UpperLevels(q));
      if p > 0 {
        StepEnds(q.pivot - q.min, p);
      }
    }
    hide PivotCode, Levels;
  }

  lemma BelowDistance(q: Range, x: real, c: int)
    requires Valid(q) && 0 < c <= PivotCode(q)
    ensures Below(q, x) - Decode(q, c) == Steps(HalfStep(q.pivot - q.min, PivotCode(q)), x - c as real)
  {
    PivotAboveMin(q);
    DecodeBelow(q, c);
    hide PivotCode, Levels, Decode, HalfStep, Part, Steps;
    PartsApart(q.pivot - q.min, x, c as real, PivotCode(q));
  }

  lemma AboveDistance(q: Range, x: real, c: int)
    requires Valid(q) && PivotIsExact(q) && PivotCode(q) <= c && UpperLevels(q) > 0
    ensures Above(q, x) - Decode(q, c) == Steps(HalfStep(q.max - q.pivot, UpperLevels(q)), x - c as real)
  {
    PivotBelowMax(q);
    DecodeAbove(q, c);
    hide PivotCode, Levels, Decode, HalfStep, Part, Steps;
    var p := PivotCode(q) as real;
    assert (x - p) - (c as real - p) == x - c as real;
    PartsApart(q.max - q.pivot, x - p, c as real - p, UpperLevels(q));
  }

  /** Where to look in the interval of a code whose own value is w, when the reader makes it read. */
  function Probe(c: int, read: real, w: real, h: real): (x: real)
    requires read != w && h > 0.0
    ensures c as real - 0.5 <= x < c as real + 0.5 && (if read > w then x < c as real else x >= c as real)
  {
    if read > w then c as real - 0.5 else c as real + 0.5 - Slack(w - read, h)
  }

  lemma ProbeMisses(c: int, read: real, w: real, h: real, v: real)
    requires read != w && h > 0.0 && v - w == Steps(h, Probe(c, read, w, h) - c as real)
    ensures Distance(read, v) > h
  {
    if read > w {
      assert v - w == -h;
    } else {
      var d := Slack(w - read, h);
      assert 2.0 * h * (0.5 - d) == h - 2.0 * h * d;
    }
  }

  lemma GapBelow(q: Range, c: int, read: real) returns (v: real)
    requires Valid(q) && 0 < c <= PivotCode(q) && (c == PivotCode(q) ==> read > Decode(q, c))
    requires Decode(q, c) != read && PivotIsExact(q)
    ensures q.min <= v <= q.max && Encode(q, v) == c && Distance(read, v) > SideStep(q, v)
  {
    PivotAboveMin(q);
    hide PivotCode, Levels, Decode, Encode, Place, PivotIsExact, HalfStep, Below, Distance, Probe, Steps;
    var h := HalfStep(q.pivot - q.min, PivotCode(q));
    HalfStepPositive(q.pivot - q.min, PivotCode(q));
    var x := Probe(c, read, Decode(q, c), h);
    BelowPlace(q, x);
    v := Below(q, x);
    Reaches(q, c, x, v);
    BelowDistance(q, x, c);
    ProbeMisses(c, read, Decode(q, c), h, v);
  }

  lemma GapAbove(q: Range, c: int, read: real) returns (v: real)
    requires Valid(q) && PivotCode(q) <= c < Levels(q) && (c == PivotCode(q) ==> read < Decode(q, c))
    requires Decode(q, c) != read && PivotIsExact(q)
    ensures q.min <= v <= q.max && Encode(q, v) == c && Distance(read, v) > SideStep(q, v)
  {
    PivotBelowMax(q);
    hide PivotCode, Levels, Decode, Encode, Place, PivotIsExact, HalfStep, Above, Distance, Probe, Steps;
    var h := HalfStep(q.max - q.pivot, UpperLevels(q));
    HalfStepPositive(q.max - q.pivot, UpperLevels(q));
    var x := Probe(c, read, Decode(q, c), h);
    AbovePlace(q, x);
    v := Above(q, x);
    Reaches(q, c, x, v);
    AboveDistance(q, x, c);
    ProbeMisses(c, read, Decode(q, c), h, v);
  }

  /** If a reader makes anything else of a code than the writer's range does, some value of that code shows it. */
  lemma GapShows(q: Range, c: int, read: real) returns (v: real)
    requires Valid(q) && PivotIsExact(q) && 0 < c < Levels(q) && Decode(q, c) != read
    ensures q.min <= v <= q.max && Encode(q, v) == c && Distance(read, v) > SideStep(q, v)
  {
    hide Encode, Decode, SideStep, PivotCode, Levels;
    if c < PivotCode(q) || (c == PivotCode(q) && read > Decode(q, c)) {
      v := GapBelow(q, c, read);
    } else {
      v := GapAbove(q, c, read);
    }
  }

  // ----- Exactly which rotations keep every angle within half a step -----

  /** Each angle comes back within half the step of its side of the writer's pivot. */
  ghost predicate AllWithinHalfStep(r: real)
    requires InTurn(r) && InTurn(Turned(r)) && Valid(Around(r))
  {
    forall v :: InTurn(v) ==> Distance(AngleRead(r, v), v) <= SideStep(Around(r), v)
  }

  /** Two pivots under which all ten-bit codes mean the same. */
  ghost predicate Alike(p: real, q: real)
    requires InTurn(p) && InTurn(q)
  {
    forall c :: 0 <= c <= 1023 ==> Decode(Around(p), c) == Decode(Around(q), c)
  }

  lemma EndsAgree(p: real, q: real)
    requires InTurn(p) && InTurn(q)
    ensures Valid(Around(p)) && Valid(Around(q))
    ensures Decode(Around(p), 0) == -PI && Decode(Around(q), 0) == -PI
    ensures Decode(Around(p), 1023) == PI && Decode(Around(q), 1023) == PI
  {
    EndIs(p);
    EndIs(q);
  }

  lemma EndIs(p: real)
    requires InTurn(p)
    ensures Valid(Around(p)) && Decode(Around(p), 0) == -PI && Decode(Around(p), 1023) == PI
  {
    TenBits(p);
    var q := Around(p);
    var k := PivotCode(q);
    if k == 1023 {
      LevelIs(p);
      assert p == PI;
    }
    hide Pow2, PivotCode, Levels;
    if k > 0 {
      StepEnds(p + PI, k);
    }
    if k < 1023 {
      StepEnds(PI - p, 1023 - k);
    }
  }

  lemma WithinIffAlike(r: real)
    requires InTurn(r) && InTurn(Turned(r)) && Valid(Around(r)) && PivotIsExact(Around(r))
    ensures AllWithinHalfStep(r) <==> Alike(r, Turned(r))
  {
    TenBits(r);
    EndsAgree(r, Turned(r));
    hide PivotCode, Levels, Encode, Decode, SideStep, PivotIsExact, Turned;
    if Alike(r, Turned(r)) {
      forall v | InTurn(v)
        ensures Distance(AngleRead(r, v), v) <= SideStep(Around(r), v)
      {
        CodesInRange(Around(r), v);
        assert 0 <= Encode(Around(r), v) <= 1023 by { TenBitCodes(r, v); }
        WithinHalfStep(Around(r), v);
      }
    } else {
      var c :| 0 <= c <= 1023 && Decode(Around(r), c) != Decode(Around(Turned(r)), c);
      var v := GapShows(Around(r), c, Decode(Around(Turned(r)), c));
      assert Distance(AngleRead(r, v), v) > SideStep(Around(r), v);
    }
  }

  lemma TenBitCodes(r: real, v: real)
    requires InTurn(r)
    ensures Valid(Around(r)) && 0 <= Encode(Around(r), v) <= 1023
  {
    TenBits(r);
    CodesInRange(Around(r), v);
  }

  /** Around a pivot on the grid, every code decodes to its own level. */
  lemma UniformDecode(p: real, c: int)
    requires InTurn(p) && OnGrid(p) && 0 <= c <= 1023
    ensures Valid(Around(p)) && Decode(Around(p), c) == At(c as real)
  {
    TenBits(p);
    LevelIs(p);
    var k := PivotCode(Around(p));
    assert p == At(k as real);
    hide Pow2, PivotCode, Levels;
    if c <= k {
      if k > 0 {
        StepOfSteps(k, c);
        assert p + PI == EVEN * k as real;
      }
    } else {
      StepOfSteps(1023 - k, c - k);
      assert PI - p == EVEN * (1023 - k) as real;
    }
  }

  lemma StepOfSteps(n: int, c: int)
    requires n >= 1
    ensures Step(EVEN * n as real, c, n) == EVEN * c as real
  {
    var m, w := n as real, EVEN * c as real;
    assert EVEN * m * c as real == w * m;
    DivTimes(w * m, m);
    Cancel(w * m / m, w, m);
    Cancel(w, w * m / m, m);
  }

  /** The code of an exact pivot decodes to it. */
  lemma PivotDecodes(q: Range)
    requires Valid(q) && PivotIsExact(q)
    ensures Decode(q, PivotCode(q)) == q.pivot
  {
    if PivotCode(q) > 0 {
      StepEnds(q.pivot - q.min, PivotCode(q));
    }
    hide PivotCode;
  }

  /** Two slopes that meet the same line: the pivots of two ranges that decode alike lie on the grid. */
  lemma OneSlope(p: real, q: real, a: int, b: int)
    requires InTurn(p) && InTurn(q) && 0 <= a < b <= 1023
    requires p + PI == Step(q + PI, a, b)
    requires q - p == Step(PI - p, b - a, 1023 - a)
    ensures p == At(a as real) && q == At(b as real)
  {
    var m, n, d := a as real, b as real, (1023 - a) as real;
    var s := (q + PI) / n;
    DivTimes(q + PI, n);
    DivTimes((q + PI) * m, n);
    DivTimes((PI - p) * (n - m), d);
    assert s * n == q + PI;
    assert (p + PI) * n == s * m * n;
    Cancel(p + PI, s * m, n);
    Cancel(s * m, p + PI, n);
    assert p + PI == s * m;
    assert q - p == s * (n - m);
    assert (q - p) * d == (PI - p) * (n - m);
    assert (s * d) * (n - m) == (PI - p) * (n - m);
    Cancel(s * d, PI - p, n - m);
    Cancel(PI - p, s * d, n - m);
    assert s * d == s * 1023.0 - s * m;
    assert s * 1023.0 == 2.0 * PI;
    assert s == EVEN;
  }

  lemma AlikePivots(p: real, q: real)
    requires InTurn(p) && InTurn(q) && Valid(Around(p)) && Valid(Around(q))
    requires PivotIsExact(Around(p)) && PivotIsExact(Around(q)) && Alike(p, q)
    requires PivotCode(Around(p)) < PivotCode(Around(q))
    ensures OnGrid(p) && OnGrid(q)
  {
    TenBits(p);
    TenBits(q);
    hide Pow2, Levels, Level, PivotIsExact;
    var a, b := PivotCode(Around(p)), PivotCode(Around(q));
    PivotDecodes(Around(p));
    PivotDecodes(Around(q));
    assert Decode(Around(q), a) == p && Decode(Around(p), b) == q;
    hide PivotCode, Alike;
    assert p + PI == Step(q + PI, a, b);
    assert q - p == Step(PI - p, b - a, 1023 - a);
    OneSlope(p, q, a, b);
    GridAt(a);
    GridAt(b);
  }

  lemma GridAt(k: int)
    ensures OnGrid(At(k as real))
  {
    AtIs(k as real);
  }

  /** Codes mean the same under two exact pivots exactly when the pivots are equal or both on the grid. */
  lemma AlikeIff(p: real, q: real)
    requires InTurn(p) && InTurn(q) && Valid(Around(p)) && Valid(Around(q))
    requires PivotIsExact(Around(p)) && PivotIsExact(Around(q))
    ensures Alike(p, q) <==> p == q || (OnGrid(p) && OnGrid(q))
  {
    hide Decode, PivotIsExact, OnGrid, PivotCode;
    if OnGrid(p) && OnGrid(q) {
      forall c | 0 <= c <= 1023
        ensures Decode(Around(p), c) == Decode(Around(q), c)
      {
        UniformDecode(p, c);
        UniformDecode(q, c);
      }
    } else if Alike(p, q) {
      PivotDecodes(Around(p));
      PivotDecodes(Around(q));
      TenBits(p);
      TenBits(q);
      if PivotCode(Around(p)) < PivotCode(Around(q)) {
        AlikePivots(p, q);
      } else if PivotCode(Around(q)) < PivotCode(Around(p)) {
        AlikePivots(q, p);
      } else {
        assert p == q by { SameCode(p, q); }
      }
    }
  }

  lemma SameCode(p: real, q: real)
    requires InTurn(p) && InTurn(q) && Valid(Around(p)) && Valid(Around(q))
    requires PivotIsExact(Around(p)) && PivotIsExact(Around(q)) && Alike(p, q)
    requires PivotCode(Around(p)) == PivotCode(Around(q))
    ensures p == q
  {
    TenBits(p);
    hide Decode, PivotIsExact;
    PivotDecodes(Around(p));
    PivotDecodes(Around(q));
    assert 0 <= PivotCode(Around(p)) <= 1023;
  }

  /** A rotation strictly before the first level spoils an angle just half a step above it. */
  lemma EarlyRotationMisses(r: real) returns (v: real)
    requires -PI < r < At(1.0)
    ensures InTurn(Turned(r)) && InTurn(v) && Valid(Around(r))
    ensures Distance(AngleRead(r, v), v) > SideStep(Around(r), v)
  {
    ReaderIsExact(r);
    TenBits(r);
    EndIs(Turned(r));
    var q := Around(r);
    hide Levels, Decode, Encode, Place, PivotIsExact, HalfStep, Above, Distance, Turned, Slack, Pow2, Steps, Part;
    var h := HalfStep(PI - r, 1023);
    HalfStepPositive(PI - r, 1023);
    var x := 0.5 - Slack(r + PI, h);
    AbovePlace(q, x);
    v := Above(q, x);
    Reaches(q, 0, x, v);
    AboveStart(r, x);
    FarFromStart(r, h, x, v);
  }

  lemma AboveStart(r: real, x: real)
    requires -PI < r < At(1.0)
    ensures Valid(Around(r)) && UpperLevels(Around(r)) == 1023
    ensures Above(Around(r), x) - r == Steps(HalfStep(PI - r, 1023), x)
  {
    TenBits(r);
    hide PivotCode, Levels, HalfStep, Pow2;
    PartsApart(PI - r, x, 0.0, 1023);
  }

  lemma FarFromStart(r: real, h: real, x: real, v: real)
    requires r > -PI && h > 0.0 && x == 0.5 - Slack(r + PI, h) && v - r == Steps(h, x)
    ensures Distance(-PI, v) > h
  {
    var d := Slack(r + PI, h);
    assert 2.0 * h * (0.5 - d) == h - 2.0 * h * d;
  }

  /**
   * Every angle comes back within half a step of its side if and only if the rotation is one that a
   * reader can return, or it and the one the reader returns both lie on the even grid.
   */
  lemma AnglesWithinIff(rotation: real)
    requires InTurn(rotation)
    ensures InTurn(Turned(rotation)) && Valid(Around(rotation))
    ensures AllWithinHalfStep(rotation) <==>
            Turned(rotation) == rotation || (OnGrid(rotation) && OnGrid(Turned(rotation)))
  {
    ReaderIsExact(rotation);
    WriterExactIff(rotation);
    EarlyIsOffGrid(rotation);
    hide PivotIsExact, Turned, Alike, OnGrid, Level, SideStep, Distance;
    if PivotIsExact(Around(rotation)) {
      WithinIffAlike(rotation);
      AlikeIff(rotation, Turned(rotation));
    } else {
      var v := EarlyRotationMisses(rotation);
    }
  }

  lemma EarlyIsOffGrid(r: real)
    ensures -PI < r < At(1.0) ==> !OnGrid(r)
    ensures InTurn(r) && InTurn(Turned(r)) && Valid(Around(Turned(r))) && PivotIsExact(Around(Turned(r))) ==>
              Turned(r) != r || r == -PI || r >= At(1.0)
  {
    if -PI < r < At(1.0) {
      LevelIs(r);
      assert Level(r).Floor == 0;
    }
    if InTurn(r) {
      WriterExactIff(r);
    }
  }

  /** Of the rotations a reader can return, these lie on the grid: the even codes below the middle, and the last. */
  lemma ReadOnGridIff(code: int)
    requires 0 <= code <= 63
    ensures Valid(ROTATION)
    ensures OnGrid(Decode(ROTATION, code)) <==> code == 63 || (code <= 30 && code % 2 == 0)
  {
    assert Pow2(6) == 64;
    hide Pow2;
    assert PivotCode(ROTATION) == 31;
    var v := Decode(ROTATION, code);
    if code <= 31 {
      assert Level(v) == 33.0 * code as real / 2.0;
      HalfIsWhole(33 * code);
    } else {
      assert Level(v) == 1023.0 * (code + 1) as real / 64.0;
      SixtyFourths(code + 1);
    }
  }

  lemma HalfIsWhole(n: int)
    ensures (n as real / 2.0) == (n as real / 2.0).Floor as real <==> n % 2 == 0
  {
    var k, b := n / 2, n % 2;
    assert n == 2 * k + b;
    assert n as real / 2.0 == k as real + b as real / 2.0;
  }

  lemma SixtyFourths(m: int)
    requires 32 < m <= 64
    ensures 1023.0 * m as real / 64.0 == (1023.0 * m as real / 64.0).Floor as real <==> m == 64
  {
    var k := (1023.0 * m as real / 64.0).Floor;
  }

  /** A rotation on the first level is read as the start of the turn, and no angle suffers. */
  lemma FirstLevelIsHarmless()
    ensures InTurn(At(1.0)) && Turned(At(1.0)) == -PI && OnGrid(At(1.0)) && OnGrid(-PI)
  {
    FirstRotations();
    GridAt(1);
    GridAt(0);
    assert At(1 as real) == At(1.0) && At(0 as real) == -PI;
    assert Pow2(6) == 64;
    hide Pow2, OnGrid;
    assert PivotCode(ROTATION) == 31;
    assert Encode(ROTATION, At(1.0)) == 0;
  }
}
