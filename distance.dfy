/** Point-to-point distances with an early exit at the cutoff radius: `calc_distance`
    (fortran_speed.py), which compares the absolute axis deltas with the cutoff, and
    `BVStructure.calcDistanceWCutoff` (bv2.py), which compares the signed deltas.
    The square root is a parameter; `IsSqrt` says what the proofs need of it. */
module Distance {

  datatype Vec3 = Vec3(x: real, y: real, z: real)

  /** What the proofs need of `math.sqrt`: a non-negative square root of every
      non-negative number. */
  ghost predicate IsSqrt(sqrt: real -> real)
  {
    forall x :: 0.0 <= x ==> 0.0 <= sqrt(x) && Square(sqrt(x)) == x
  }

  /** `x**2`. */
  function Square(r: real): real { r * r }

  function AbsReal(r: real): (a: real)
    ensures 0.0 <= a && (a == r || a == -r)
  {
    if r < 0.0 then -r else r
  }

  lemma AbsSquare(r: real)
    ensures Square(AbsReal(r)) == Square(r)
  {
  }

  function SquaredDistance(p: Vec3, q: Vec3): (s: real)
    ensures 0.0 <= s
  {
    Square(q.x - p.x) + Square(q.y - p.y) + Square(q.z - p.z)
  }

  /** The true distance between two points. */
  function Euclidean(sqrt: real -> real, p: Vec3, q: Vec3): real
  {
    sqrt(SquaredDistance(p, q))
  }

  /** Some axis is farther apart than the cutoff, so `calc_distance` stops early. */
  predicate Pruned(p: Vec3, q: Vec3, rCutoff: real)
  {
    AbsReal(q.x - p.x) > rCutoff || AbsReal(q.y - p.y) > rCutoff || AbsReal(q.z - p.z) > rCutoff
  }

  /** `calc_distance` (fortran_speed.py): the first absolute axis delta above the cutoff,
      checked in the order x, y, z, or else the Euclidean distance. */
  function CutoffDistance(sqrt: real -> real, p: Vec3, q: Vec3, rCutoff: real): (d: real)
    ensures Pruned(p, q, rCutoff) ==>
              d > rCutoff
              && (d == AbsReal(q.x - p.x) || d == AbsReal(q.y - p.y) || d == AbsReal(q.z - p.z))
    ensures AbsReal(q.x - p.x) > rCutoff ==> d == AbsReal(q.x - p.x)
    ensures AbsReal(q.x - p.x) <= rCutoff < AbsReal(q.y - p.y) ==> d == AbsReal(q.y - p.y)
    ensures AbsReal(q.x - p.x) <= rCutoff && AbsReal(q.y - p.y) <= rCutoff < AbsReal(q.z - p.z) ==>
              d == AbsReal(q.z - p.z)
    ensures !Pruned(p, q, rCutoff) ==> d == Euclidean(sqrt, p, q)
  {
    var dx := AbsReal(q.x - p.x);
    if dx > rCutoff then dx
    else
      var dy := AbsReal(q.y - p.y);
      if dy > rCutoff then dy
      else
        var dz := AbsReal(q.z - p.z);
        if dz > rCutoff then dz
        else
          assert Square(dx) + Square(dy) + Square(dz) == SquaredDistance(p, q) by {
            AbsSquare(q.x - p.x);
            AbsSquare(q.y - p.y);
            AbsSquare(q.z - p.z);
          }
          sqrt(Square(dx) + Square(dy) + Square(dz))
  }

  /** Some signed axis delta exceeds the cutoff, so `calcDistanceWCutoff` stops early;
      a large negative delta does not count. */
  predicate SignedPruned(p: Vec3, q: Vec3, rCutoff: real)
  {
    q.x - p.x > rCutoff || q.y - p.y > rCutoff || q.z - p.z > rCutoff
  }

  /** `calcDistanceWCutoff` (bv2.py) as written: the signed deltas are compared. */
  function SignedCutoffDistance(sqrt: real -> real, p: Vec3, q: Vec3, rCutoff: real): (d: real)
    ensures SignedPruned(p, q, rCutoff) ==>
              d > rCutoff && (d == q.x - p.x || d == q.y - p.y || d == q.z - p.z)
    ensures q.x - p.x > rCutoff ==> d == q.x - p.x
    ensures q.x - p.x <= rCutoff < q.y - p.y ==> d == q.y - p.y
    ensures q.x - p.x <= rCutoff && q.y - p.y <= rCutoff < q.z - p.z ==> d == q.z - p.z
    ensures !SignedPruned(p, q, rCutoff) ==> d == Euclidean(sqrt, p, q)
  {
    var dx := q.x - p.x;
    if dx > rCutoff then dx
    else
      var dy := q.y - p.y;
      if dy > rCutoff then dy
      else
        var dz := q.z - p.z;
        if dz > rCutoff then dz
        else
          assert dx * dx + dy * dy + dz * dz == SquaredDistance(p, q);
          sqrt(Square(dx) + Square(dy) + Square(dz))
  }

  // ---------------------------------------------------------------------------
  // Properties

  lemma MulLe(a: real, b: real, c: real)
    requires 0.0 <= a && b <= c
    ensures a * b <= a * c
  {
  }

  lemma MulLt(a: real, b: real, c: real)
    requires 0.0 < a && b < c
    ensures a * b < a * c
  {
  }

  lemma SquareBelowProduct(a: real, b: real)
    requires 0.0 <= a <= b
    ensures Square(a) <= a * b
  {
    MulLe(a, a, b);
  }

  lemma ProductBelowSquare(a: real, b: real)
    requires 0.0 <= a < b
    ensures a * b < Square(b)
  {
    MulLt(b, a, b);
  }

  lemma SquareLess(a: real, b: real)
    requires 0.0 <= a < b
    ensures Square(a) < Square(b)
  {
    SquareBelowProduct(a, b);
    ProductBelowSquare(a, b);
  }

  /** For non-negative numbers the order of the squares is the order of the numbers. */
  lemma SquareMonotone(a: real, b: real)
    requires 0.0 <= a && 0.0 <= b
    ensures Square(a) < Square(b) <==> a < b
    ensures Square(a) <= Square(b) <==> a <= b
  {
    if a < b {
      SquareLess(a, b);
    } else if b < a {
      SquareLess(b, a);
    }
  }

  /** An axis delta is never more than the distance. */
  lemma AxisBelowEuclidean(sqrt: real -> real, p: Vec3, q: Vec3)
    requires IsSqrt(sqrt)
    ensures AbsReal(q.x - p.x) <= Euclidean(sqrt, p, q)
    ensures AbsReal(q.y - p.y) <= Euclidean(sqrt, p, q)
    ensures AbsReal(q.z - p.z) <= Euclidean(sqrt, p, q)
  {
    var s := SquaredDistance(p, q);
    var e := sqrt(s);
    assert 0.0 <= e && Square(e) == s;
    var ax, ay, az := AbsReal(q.x - p.x), AbsReal(q.y - p.y), AbsReal(q.z - p.z);
    AbsSquare(q.x - p.x);
    AbsSquare(q.y - p.y);
    AbsSquare(q.z - p.z);
    assert Square(ax) + Square(ay) + Square(az) == s;
    SquareMonotone(ax, e);
    SquareMonotone(ay, e);
    SquareMonotone(az, e);
  }

  /** The early exit is exact: the result is above the cutoff precisely when the true
      distance is, whatever the cutoff. */
  lemma CutoffClassification(sqrt: real -> real, p: Vec3, q: Vec3, rCutoff: real)
    requires IsSqrt(sqrt)
    ensures CutoffDistance(sqrt, p, q, rCutoff) > rCutoff <==> Euclidean(sqrt, p, q) > rCutoff
  {
    AxisBelowEuclidean(sqrt, p, q);
  }

  /** The result never exceeds the true distance. */
  lemma CutoffBelowEuclidean(sqrt: real -> real, p: Vec3, q: Vec3, rCutoff: real)
    requires IsSqrt(sqrt)
    ensures CutoffDistance(sqrt, p, q, rCutoff) <= Euclidean(sqrt, p, q)
  {
    AxisBelowEuclidean(sqrt, p, q);
  }

  /** Within the cutoff the result is the true distance. */
  lemma CutoffExactWithin(sqrt: real -> real, p: Vec3, q: Vec3, rCutoff: real)
    requires IsSqrt(sqrt)
    ensures Euclidean(sqrt, p, q) <= rCutoff ==> CutoffDistance(sqrt, p, q, rCutoff) == Euclidean(sqrt, p, q)
  {
    AxisBelowEuclidean(sqrt, p, q);
  }

  /** Swapping the two points changes nothing. */
  lemma CutoffSymmetric(sqrt: real -> real, p: Vec3, q: Vec3, rCutoff: real)
    ensures CutoffDistance(sqrt, p, q, rCutoff) == CutoffDistance(sqrt, q, p, rCutoff)
  {
    assert AbsReal(q.x - p.x) == AbsReal(p.x - q.x);
    assert AbsReal(q.y - p.y) == AbsReal(p.y - q.y);
    assert AbsReal(q.z - p.z) == AbsReal(p.z - q.z);
    assert SquaredDistance(p, q) == SquaredDistance(q, p);
  }

  /** With a 6 Å cutoff: (0,0,0)-(1,1,1) is √3, (3,4,1)-(-1,0,-2) is √41, an axis delta of
      exactly 6 does not stop early so (3,4,1)-(-3,0,-2) is √61, and (3,4,1)-(-10,0,-2)
      stops at the x delta, 13, in either order. */
  lemma CutoffExamples(sqrt: real -> real)
    ensures CutoffDistance(sqrt, Vec3(0.0, 0.0, 0.0), Vec3(1.0, 1.0, 1.0), 6.0) == sqrt(3.0)
    ensures CutoffDistance(sqrt, Vec3(3.0, 4.0, 1.0), Vec3(-1.0, 0.0, -2.0), 6.0) == sqrt(41.0)
    ensures CutoffDistance(sqrt, Vec3(3.0, 4.0, 1.0), Vec3(-3.0, 0.0, -2.0), 6.0) == sqrt(61.0)
    ensures CutoffDistance(sqrt, Vec3(3.0, 4.0, 1.0), Vec3(-10.0, 0.0, -2.0), 6.0) == 13.0
    ensures CutoffDistance(sqrt, Vec3(-10.0, 0.0, -2.0), Vec3(3.0, 4.0, 1.0), 6.0) == 13.0
  {
  }

  /** The signed comparison misses a large negative delta: for (3,4,1)-(-10,0,-2) with a
      6 Å cutoff `calcDistanceWCutoff` computes √194 instead of stopping at 13, and the
      answer depends on the order of the points. */
  lemma SignedCutoffMissesNegativeDelta(sqrt: real -> real)
    ensures SignedCutoffDistance(sqrt, Vec3(3.0, 4.0, 1.0), Vec3(-10.0, 0.0, -2.0), 6.0) == sqrt(194.0)
    ensures SignedCutoffDistance(sqrt, Vec3(-10.0, 0.0, -2.0), Vec3(3.0, 4.0, 1.0), 6.0) == 13.0
  {
  }

  /** Both variants still agree on which contacts are outside the cutoff, and within it
      both give the true distance. */
  lemma SignedAgreesOnClassification(sqrt: real -> real, p: Vec3, q: Vec3, rCutoff: real)
    requires IsSqrt(sqrt)
    ensures SignedCutoffDistance(sqrt, p, q, rCutoff) > rCutoff <==> Euclidean(sqrt, p, q) > rCutoff
    ensures Euclidean(sqrt, p, q) <= rCutoff ==>
              SignedCutoffDistance(sqrt, p, q, rCutoff) == CutoffDistance(sqrt, p, q, rCutoff)
  {
    AxisBelowEuclidean(sqrt, p, q);
  }
}
