/**
 * The parallelogram helpers of labelme/utils/point.py.
 *
 * Coordinates are integers. Euclidean distance only ever appears in
 * comparisons, so it is modelled by the squared distance, which orders
 * pairs of points the same way and ties exactly when they tie.
 */
module PointUtils {

  /** A 2-D point, as a `QPointF` or a numpy row `[x, y]`. */
  datatype Point = Point(x: int, y: int)

  /** Component-wise sum (`QPointF.__add__`). */
  function Add(p: Point, q: Point): Point {
    Point(p.x + q.x, p.y + q.y)
  }

  /** Component-wise difference (`QPointF.__sub__`). */
  function Sub(p: Point, q: Point): Point {
    Point(p.x - q.x, p.y - q.y)
  }

  function Neg(p: Point): Point {
    Point(-p.x, -p.y)
  }

  /** The square of `CalcEuclideanDistance(p, q)`. */
  function SqDist(p: Point, q: Point): (r: int)
    ensures r >= 0
    ensures r == 0 <==> p == q
  {
    Square(p.x - q.x) + Square(p.y - q.y)
  }

  function Square(a: int): (r: int)
    ensures r >= 0
    ensures r == 0 <==> a == 0
  {
    if a == 0 then 0
    else
      assert a * a == (if a < 0 then -a else a) * (if a < 0 then -a else a);
      a * a
  }

  lemma SqDistSymmetric(p: Point, q: Point)
    ensures SqDist(p, q) == SqDist(q, p)
  {
    assert Square(p.x - q.x) == Square(q.x - p.x);
    assert Square(p.y - q.y) == Square(q.y - p.y);
  }

  /**
   * The vertex completing the parallelogram whose diagonals are p1-p2 and
   * p3-result: both diagonals share their midpoint.
   */
  function CalcFourthPoint(p1: Point, p2: Point, p3: Point): (d: Point)
    ensures Add(d, p3) == Add(p1, p2)
    ensures Sub(d, p1) == Sub(p2, p3) && Sub(d, p2) == Sub(p1, p3)
  {
    Point(p1.x + p2.x - p3.x, p1.y + p2.y - p3.y)
  }

  lemma CalcFourthPointSymmetric(p1: Point, p2: Point, p3: Point)
    ensures CalcFourthPoint(p1, p2, p3) == CalcFourthPoint(p2, p1, p3)
  {
    var d1, d2 := CalcFourthPoint(p1, p2, p3), CalcFourthPoint(p2, p1, p3);
    assert Add(d1, p3) == Add(d2, p3);
  }

  /**
   * `dist.index(max(dist))` for `dist == [d12, d13, d23]`: the position of
   * the first maximum.
   */
  function FirstMaxIndex(d12: int, d13: int, d23: int): (k: nat)
    ensures k < 3
    ensures var ds := [d12, d13, d23];
      (forall j :: 0 <= j < 3 ==> ds[j] <= ds[k]) &&
      (forall j :: 0 <= j < k ==> ds[j] < ds[k])
  {
    if d12 >= d13 && d12 >= d23 then 0
    else if d13 >= d23 then 1
    else 2
  }

  /**
   * The fourth corner guessed from three clicks of unknown order: the
   * longest of the three sides is taken as a diagonal (the first one on a
   * tie, in the order p1-p2, p1-p3, p2-p3) and the parallelogram is completed
   * across it, the remaining point being the opposite corner.
   */
  function JudgeBeveling(p1: Point, p2: Point, p3: Point): (d: Point)
    ensures var d12, d13, d23 := SqDist(p1, p2), SqDist(p1, p3), SqDist(p2, p3);
      (d12 >= d13 && d12 >= d23 ==> Add(d, p3) == Add(p1, p2)) &&
      (d13 > d12 && d13 >= d23 ==> Add(d, p2) == Add(p1, p3)) &&
      (d23 > d12 && d23 > d13 ==> Add(d, p1) == Add(p2, p3))
  {
    var k := FirstMaxIndex(SqDist(p1, p2), SqDist(p1, p3), SqDist(p2, p3));
    if k == 0 then CalcFourthPoint(p1, p2, p3)
    else if k == 1 then CalcFourthPoint(p1, p3, p2)
    else CalcFourthPoint(p2, p3, p1)
  }

  /**
   * When the second click is the corner between the other two (the side
   * from the first to the third click is strictly the longest), the
   * longest-side guess agrees with the fixed click-order rule that
   * `Shape.onMousePress` uses, `CalcFourthPoint(c, a, b)`.
   */
  lemma JudgeBevelingAgreesWithClickOrder(a: Point, b: Point, c: Point)
    requires SqDist(a, c) > SqDist(a, b) && SqDist(a, c) > SqDist(b, c)
    ensures JudgeBeveling(a, b, c) == CalcFourthPoint(c, a, b)
  {
    var d := JudgeBeveling(a, b, c);
    assert Add(d, b) == Add(a, c);
    assert Add(CalcFourthPoint(c, a, b), b) == Add(c, a);
  }

  /** The two rules differ when the longest side is not the first-to-third. */
  lemma JudgeBevelingDiffersFromClickOrder()
    ensures JudgeBeveling(Point(0, 0), Point(2, 1), Point(2, 0))
         != CalcFourthPoint(Point(2, 0), Point(0, 0), Point(2, 1))
  {
    var a, b, c := Point(0, 0), Point(2, 1), Point(2, 0);
    assert Square(-2) == 4 && Square(-1) == 1 && Square(0) == 0 && Square(1) == 1;
    assert FirstMaxIndex(SqDist(a, b), SqDist(a, c), SqDist(b, c)) == 0;
    assert JudgeBeveling(a, b, c) == Point(0, 1);
    assert CalcFourthPoint(c, a, b) == Point(0, -1);
  }
}
