/**
 * The clamp of an attached slot's position: slotTable and clampVectorLength in
 * src/protocol/types/PlayerState.js. The writer shortens the vector to length four before it
 * quantizes, so codes that were read need not be the codes that are written again.
 */
module SlotPositions {
  import opened Octets
  import opened Quantizer
  import opened PlayerRanges

  /** The three codes of a relative position. */
  datatype Codes = Codes(x: int, y: int, z: int)

  predicate IsCode(c: int) {
    0 <= c <= 63
  }

  predicate AreCodes(c: Codes) {
    IsCode(c.x) && IsCode(c.y) && IsCode(c.z)
  }

  /** The coordinate a code decodes to. */
  function Coordinate(c: int): real {
    if c <= 31 then (4 * c - 124) as real / 31.0 else (c - 31) as real / 8.0
  }

  function Square(v: real): real {
    v * v
  }

  /** The squared length of the vector that three codes decode to. */
  function Squared(c: Codes): real {
    Square(Coordinate(c.x)) + Square(Coordinate(c.y)) + Square(Coordinate(c.z))
  }

  /** The least value with code c or more. */
  function Boundary(c: int): real {
    if c <= 31 then (4 * c - 126) as real / 31.0 else (2 * c - 63) as real / 16.0
  }

  /** b <= 4 * v / sqrt(sq), by squares. */
  predicate ScaledAtLeast(v: real, sq: real, b: real) {
    if b <= 0.0 then v >= 0.0 || 16.0 * Square(v) <= Square(b) * sq
    else v > 0.0 && Square(b) * sq <= 16.0 * Square(v)
  }

  /** The largest code up to c that the scaled coordinate reaches. */
  function Reached(v: real, sq: real, c: nat): (r: nat)
    ensures r <= c
  {
    if c == 0 || ScaledAtLeast(v, sq, Boundary(c)) then c else Reached(v, sq, c - 1)
  }

  /** The code of a coordinate of a vector that is shortened from squared length sq to length four. */
  function Shortened(v: real, sq: real): (r: int)
    ensures IsCode(r)
  {
    Reached(v, sq, 63)
  }

  /** What the writer makes of codes that were read: those of the vector shortened to length four. */
  function Clamped(c: Codes): (r: Codes)
    ensures AreCodes(c) ==> AreCodes(r)
  {
    var sq := Squared(c);
    if !AreCodes(c) || sq <= 16.0 then c
    else Codes(Shortened(Coordinate(c.x), sq), Shortened(Coordinate(c.y), sq), Shortened(Coordinate(c.z), sq))
  }

  /** Shortening a vector of squared length sq pulls the coordinate v towards 0 by half a step at most. */
  predicate Stays(v: real, sq: real) {
    && (v > 0.0 ==> Square(v - 1.0 / 16.0) * sq <= 16.0 * Square(v))
    && (v < 0.0 ==> Square(-v - 2.0 / 31.0) * sq < 16.0 * Square(v))
  }

  /** Not longer than four, or shortened without leaving any code's interval. */
  predicate Kept(c: Codes) {
    var sq := Squared(c);
    sq <= 16.0 || (Stays(Coordinate(c.x), sq) && Stays(Coordinate(c.y), sq) && Stays(Coordinate(c.z), sq))
  }

  // ----- Coordinates are what the quantizer decodes -----

  lemma SlotLevels()
    ensures Valid(SLOT_POSITION) && Levels(SLOT_POSITION) == 63
    ensures PivotCode(SLOT_POSITION) == 31 && UpperLevels(SLOT_POSITION) == 32
  {
    assert Pow2(6) == 64;
    hide Pow2;
  }

  lemma CoordinateIs(c: int)
    requires IsCode(c)
    ensures Valid(SLOT_POSITION) && Decode(SLOT_POSITION, c) == Coordinate(c)
    ensures -4.0 <= Coordinate(c) <= 4.0
  {
    SlotLevels();
    hide Pow2, PivotCode, Levels;
  }

  /** A value has code c or more exactly when it reaches c's boundary. */
  lemma BoundaryIs(v: real, c: int)
    requires -4.0 <= v <= 4.0 && 1 <= c <= 63
    ensures Valid(SLOT_POSITION) && (Encode(SLOT_POSITION, v) >= c <==> Boundary(c) <= v)
  {
    SlotLevels();
    hide Pow2, PivotCode, Levels;
    assert Clamp(SLOT_POSITION, v) == v;
    if v < 0.0 {
      assert Frac(v + 4.0, 4.0, 31) == (v + 4.0) * 31.0 / 4.0;
    } else {
      assert Frac(v, 4.0, 32) == v * 8.0;
    }
  }

  // ----- Squares -----

  lemma SquareLess(a: real, b: real)
    requires 0.0 <= a < b
    ensures Square(a) < Square(b)
  {
    var gap := b - a;
    MulMonoStrict(0.0, gap, a + b);
    assert gap * (a + b) > 0.0;
    assert Square(b) == Square(a) + gap * (a + b);
  }

  lemma SquareMono(a: real, b: real)
    requires a >= 0.0 && b >= 0.0
    ensures Square(a) <= Square(b) <==> a <= b
  {
    hide Square;
    if a < b {
      SquareLess(a, b);
    } else if b < a {
      SquareLess(b, a);
    }
  }

  lemma ScaleSquares(v: real, w: real, k: real)
    requires k > 0.0
    ensures Square(v) <= Square(w) <==> Square(v) * k <= Square(w) * k
  {
    if Square(v) <= Square(w) {
      MulMono(Square(v), Square(w), k);
    } else {
      MulMonoStrict(Square(w), Square(v), k);
    }
  }

  lemma SquareOfProduct(scale: real, v: real, sq: real)
    requires Square(scale) * sq == 16.0
    ensures Square(scale * v) * sq == 16.0 * Square(v)
  {
    assert Square(scale * v) * sq == Square(scale) * sq * Square(v);
  }

  function Scale(scale: real, v: real): real {
    scale * v
  }

  /** Comparing by squares is comparing with the scaled coordinate. */
  lemma ScaledAtLeastIs(v: real, sq: real, scale: real, b: real)
    requires sq > 0.0 && scale > 0.0 && Square(scale) * sq == 16.0
    ensures ScaledAtLeast(v, sq, b) <==> b <= Scale(scale, v)
  {
    var w := Scale(scale, v);
    SquareOfProduct(scale, v, sq);
    assert v > 0.0 <==> w > 0.0;
    assert v == 0.0 ==> w == 0.0;
    ScaleSquares(b, w, sq);
    ScaleSquares(w, b, sq);
    assert Square(-w) == Square(w) && Square(-b) == Square(b);
    hide Square;
    if b > 0.0 && w > 0.0 {
      SquareMono(b, w);
    } else if b <= 0.0 && w < 0.0 {
      SquareMono(-w, -b);
    }
  }

  // ----- The clamp is the source's -----

  lemma {:induction false} ReachedIs(v: real, sq: real, code: int, c: nat)
    requires 0 <= code <= c <= 63
    requires forall d :: 1 <= d <= 63 ==> (ScaledAtLeast(v, sq, Boundary(d)) <==> code >= d)
    ensures Reached(v, sq, c) == code
  {
    hide ScaledAtLeast;
    if code < c {
      ReachedIs(v, sq, code, c - 1);
    }
  }

  lemma ScaledInRange(v: real, sq: real, scale: real)
    requires sq > 0.0 && scale > 0.0 && Square(scale) * sq == 16.0 && Square(v) <= sq
    ensures -4.0 <= Scale(scale, v) <= 4.0
  {
    var w := Scale(scale, v);
    SquareOfProduct(scale, v, sq);
    assert Square(4.0) == 16.0;
    ScaleSquares(w, 4.0, sq);
    assert Square(-w) == Square(w);
    hide Square;
    if w >= 0.0 {
      SquareMono(w, 4.0);
    } else {
      SquareMono(-w, 4.0);
    }
  }

  lemma ReachedIsEncoded(v: real, sq: real, scale: real)
    requires sq > 0.0 && scale > 0.0 && Square(scale) * sq == 16.0 && Square(v) <= sq
    ensures Valid(SLOT_POSITION) && Shortened(v, sq) == Encode(SLOT_POSITION, Scale(scale, v))
  {
    SlotLevels();
    assert Pow2(SLOT_POSITION.bits) == 64;
    hide Scale, ScaledAtLeast, Encode, Boundary, Reached, Pow2, Levels, PivotCode;
    ScaledInRange(v, sq, scale);
    var code := Encode(SLOT_POSITION, Scale(scale, v));
    CodesInRange(SLOT_POSITION, Scale(scale, v));
    forall d | 1 <= d <= 63
      ensures ScaledAtLeast(v, sq, Boundary(d)) <==> code >= d
    {
      ScaledAtLeastIs(v, sq, scale, Boundary(d));
      BoundaryIs(Scale(scale, v), d);
    }
    ReachedIs(v, sq, code, 63);
  }

  /** For scale 4 / length, the clamped codes are those of the vector times scale. */
  lemma ClampIsScaled(c: Codes, scale: real)
    requires AreCodes(c) && Squared(c) > 16.0 && scale > 0.0 && Square(scale) * Squared(c) == 16.0
    ensures Valid(SLOT_POSITION)
    ensures Clamped(c) ==
            Codes(Encode(SLOT_POSITION, Scale(scale, Decode(SLOT_POSITION, c.x))),
                  Encode(SLOT_POSITION, Scale(scale, Decode(SLOT_POSITION, c.y))),
                  Encode(SLOT_POSITION, Scale(scale, Decode(SLOT_POSITION, c.z))))
  {
    hide Scale, Encode, Decode, Coordinate, Shortened, Square, Squared, Valid;
    CoordinatesWithin(c);
    CoordinateScaled(c.x, Squared(c), scale);
    CoordinateScaled(c.y, Squared(c), scale);
    CoordinateScaled(c.z, Squared(c), scale);
  }

  lemma CoordinateScaled(c: int, sq: real, scale: real)
    requires IsCode(c) && sq > 16.0 && scale > 0.0 && Square(scale) * sq == 16.0 && Square(Coordinate(c)) <= sq
    ensures Valid(SLOT_POSITION)
    ensures Shortened(Coordinate(c), sq) == Encode(SLOT_POSITION, Scale(scale, Decode(SLOT_POSITION, c)))
  {
    CoordinateIs(c);
    hide Scale, Encode, Decode, Coordinate, Shortened, Square;
    ReachedIsEncoded(Coordinate(c), sq, scale);
  }

  lemma CoordinatesWithin(c: Codes)
    ensures Square(Coordinate(c.x)) <= Squared(c)
    ensures Square(Coordinate(c.y)) <= Squared(c)
    ensures Square(Coordinate(c.z)) <= Squared(c)
  {
    hide Coordinate, Square;
    SquareNotNegative(Coordinate(c.x));
    SquareNotNegative(Coordinate(c.y));
    SquareNotNegative(Coordinate(c.z));
  }

  lemma SquareNotNegative(v: real)
    ensures Square(v) >= 0.0
  {}

  // ----- When codes survive -----

  /** A coordinate is pulled towards 0, and so never beyond the far end of its interval. */
  lemma StaysIs(c: int, sq: real)
    requires IsCode(c) && sq > 16.0
    ensures var v := Coordinate(c);
            (Stays(v, sq) <==> (c > 0 ==> ScaledAtLeast(v, sq, Boundary(c))) && !ScaledAtLeast(v, sq, Boundary(c + 1)))
  {
    var v := Coordinate(c);
    assert Square(v) >= 0.0;
    if v > 0.0 {
      assert Boundary(c) == v - 1.0 / 16.0 && Boundary(c + 1) == v + 1.0 / 16.0;
      PulledIn(v, v + 1.0 / 16.0, sq);
    } else if v < 0.0 {
      assert Boundary(c) == v - 2.0 / 31.0 && Boundary(c + 1) == v + 2.0 / 31.0;
      assert Square(v - 2.0 / 31.0) == Square(-v + 2.0 / 31.0) && Square(-v) == Square(v);
      assert Square(v + 2.0 / 31.0) == Square(-v - 2.0 / 31.0);
      PulledIn(-v, -v + 2.0 / 31.0, sq);
    }
  }

  lemma PulledIn(v: real, b: real, sq: real)
    requires 0.0 < v < b && sq > 16.0
    ensures 16.0 * Square(v) < Square(b) * sq
  {
    SquareMono(v, b);
    assert Square(v) >= 0.0;
    assert Square(b) > 0.0;
    hide Square;
    MulMonoStrict(16.0, sq, Square(b));
  }

  lemma AtLeastLess(v: real, sq: real, b: real, d: real)
    requires ScaledAtLeast(v, sq, b) && d <= b && sq > 0.0
    ensures ScaledAtLeast(v, sq, d)
  {
    assert Square(-d) == Square(d) && Square(-b) == Square(b);
    ScaleSquares(d, b, sq);
    ScaleSquares(b, d, sq);
    if 0.0 < d {
      SquareMono(d, b);
    } else if b <= 0.0 {
      SquareMono(-b, -d);
    }
  }

  lemma BoundaryMono(c: int, d: int)
    requires c <= d
    ensures Boundary(c) <= Boundary(d)
  {}

  /** The largest code reached is c exactly when c is reached and the next code is not. */
  lemma {:induction false} ReachedIff(v: real, sq: real, c: nat, top: nat)
    requires c <= top <= 63 && sq > 0.0
    requires top < 63 ==> !ScaledAtLeast(v, sq, Boundary(top + 1))
    ensures Reached(v, sq, top) == c <==>
            (c > 0 ==> ScaledAtLeast(v, sq, Boundary(c))) && (c < 63 ==> !ScaledAtLeast(v, sq, Boundary(c + 1)))
    decreases top
  {
    hide ScaledAtLeast, Boundary;
    if c < top {
      if ScaledAtLeast(v, sq, Boundary(top)) {
        BoundaryMono(c + 1, top);
        AtLeastLess(v, sq, Boundary(top), Boundary(c + 1));
      } else {
        ReachedIff(v, sq, c, top - 1);
      }
    }
  }

  lemma CoordinateKeptIff(c: int, sq: real)
    requires IsCode(c) && sq > 16.0
    ensures Shortened(Coordinate(c), sq) == c <==> Stays(Coordinate(c), sq)
  {
    StaysIs(c, sq);
    ReachedIff(Coordinate(c), sq, c, 63);
  }

  /** Codes are written as they were read exactly when they are short or the clamp stays within their intervals. */
  lemma ClampedIff(c: Codes)
    requires AreCodes(c)
    ensures Clamped(c) == c <==> Kept(c)
  {
    hide Stays, Shortened, Coordinate;
    var sq := Squared(c);
    if sq > 16.0 {
      CoordinateKeptIff(c.x, sq);
      CoordinateKeptIff(c.y, sq);
      CoordinateKeptIff(c.z, sq);
    }
  }

  lemma OthersUnclamped(c: Codes)
    requires !AreCodes(c)
    ensures Clamped(c) == c
  {}

  // ----- Examples -----

  /** The far corner (4, 4, 4) comes back as 2.25 in each coordinate. */
  lemma FarCornerMoves()
    ensures Squared(Codes(63, 63, 63)) == 48.0 && !Kept(Codes(63, 63, 63))
    ensures Clamped(Codes(63, 63, 63)) == Codes(49, 49, 49)
  {
    var c := Codes(63, 63, 63);
    assert Squared(c) == 48.0;
    assert ScaledAtLeast(4.0, 48.0, Boundary(49)) && !ScaledAtLeast(4.0, 48.0, Boundary(50));
    ReachedIff(4.0, 48.0, 49, 63);
  }

  /** Being a little longer than four does no harm: (4, 1/8, 0). */
  lemma LittleLongerStays()
    ensures Squared(Codes(63, 32, 31)) > 16.0 && Clamped(Codes(63, 32, 31)) == Codes(63, 32, 31)
  {
    ClampedIff(Codes(63, 32, 31));
  }
}
