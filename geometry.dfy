/**
 * The value-level geometry behind labelme/shape.py: the corner ordering of
 * `sorted_points`, the bounding box used by `convertToRect`, the corner
 * offsets of `zoomShape`, the translation of `moveBy`, the neighbour rule
 * of `moveVertexBy`, and the specification of the two hit-test scans.
 * The `Shape` class in ShapeModel applies these to its point list.
 */
module ShapeGeometry {
  import opened PointUtils
  import opened Wrappers

  // ---------------------------------------------------------------------
  // Sorting by the key (x, y), as `sorted(dt_boxes, key=lambda x: (x[0], x[1]))`

  /** Python's tuple order on `(x, y)`. */
  predicate LexLe(a: Point, b: Point) {
    a.x < b.x || (a.x == b.x && a.y <= b.y)
  }

  ghost predicate LexSorted(s: seq<Point>) {
    forall i, j :: 0 <= i < j < |s| ==> LexLe(s[i], s[j])
  }

  function Insert(p: Point, s: seq<Point>): (r: seq<Point>)
    ensures |r| == |s| + 1
    ensures multiset(r) == multiset(s) + multiset{p}
  {
    if s == [] then [p]
    else if LexLe(p, s[0]) then [p] + s
    else
      assert s == [s[0]] + s[1..];
      [s[0]] + Insert(p, s[1..])
  }

  /** Every point of `s` is at or after `q` in the (x, y) order. */
  ghost predicate LowerBound(q: Point, s: seq<Point>) {
    forall k :: 0 <= k < |s| ==> LexLe(q, s[k])
  }

  /** Inserting a point at or after `q` keeps `q` a lower bound. */
  lemma {:induction false} InsertLowerBound(q: Point, p: Point, s: seq<Point>)
    requires LexLe(q, p) && LowerBound(q, s)
    ensures LowerBound(q, Insert(p, s))
  {
    if s != [] && !LexLe(p, s[0]) {
      InsertLowerBound(q, p, s[1..]);
      assert Insert(p, s) == [s[0]] + Insert(p, s[1..]);
    }
  }

  /** A lower bound put in front of a sorted sequence keeps it sorted. */
  lemma ConsSorted(q: Point, t: seq<Point>)
    requires LexSorted(t) && LowerBound(q, t)
    ensures LexSorted([q] + t)
  {
    var r := [q] + t;
    forall i, j | 0 <= i < j < |r| ensures LexLe(r[i], r[j]) {
      assert r[j] == t[j - 1];
      if i > 0 {
        assert r[i] == t[i - 1];
      }
    }
  }

  lemma {:induction false} InsertSorted(p: Point, s: seq<Point>)
    requires LexSorted(s)
    ensures LexSorted(Insert(p, s))
  {
    if s == [] {
    } else if LexLe(p, s[0]) {
      forall k | 0 <= k < |s| ensures LexLe(p, s[k]) {
        assert LexLe(s[0], s[k]);
      }
      ConsSorted(p, s);
    } else {
      assert LexSorted(s[1..]);
      assert LowerBound(s[0], s[1..]);
      InsertSorted(p, s[1..]);
      InsertLowerBound(s[0], p, s[1..]);
      ConsSorted(s[0], Insert(p, s[1..]));
    }
  }

  /** An insertion sort standing for Python's `sorted` on the key (x, y). */
  function SortLex(s: seq<Point>): (r: seq<Point>)
    ensures |r| == |s|
    ensures multiset(r) == multiset(s)
    ensures LexSorted(r)
  {
    if s == [] then []
    else
      assert s == [s[0]] + s[1..];
      InsertSorted(s[0], SortLex(s[1..]));
      Insert(s[0], SortLex(s[1..]))
  }

  lemma LexAntisymmetric(a: Point, b: Point)
    requires LexLe(a, b) && LexLe(b, a)
    ensures a == b
  {
  }

  /** The head of a sorted sequence is at or before each of its points. */
  lemma SortedHeadFirst(a: seq<Point>, x: Point)
    requires LexSorted(a) && x in multiset(a)
    ensures |a| > 0 && LexLe(a[0], x)
  {
    assert x in a;
    var j :| 0 <= j < |a| && a[j] == x;
    if j > 0 {
      assert LexLe(a[0], a[j]);
    }
  }

  lemma TailMultiset(a: seq<Point>)
    requires |a| > 0
    ensures multiset(a[1..]) == multiset(a) - multiset{a[0]}
  {
    assert a == [a[0]] + a[1..];
  }

  /** Two sorted arrangements of the same points are the same sequence. */
  lemma {:induction false} SortedUnique(a: seq<Point>, b: seq<Point>)
    requires LexSorted(a) && LexSorted(b)
    requires multiset(a) == multiset(b)
    ensures a == b
  {
    if a == [] {
      assert |b| == |multiset(b)| == 0;
    } else {
      SortedHeadFirst(b, a[0]);
      SortedHeadFirst(a, b[0]);
      LexAntisymmetric(a[0], b[0]);
      TailMultiset(a);
      TailMultiset(b);
      assert LexSorted(a[1..]) && LexSorted(b[1..]);
      SortedUnique(a[1..], b[1..]);
      assert a == [a[0]] + a[1..];
      assert b == [b[0]] + b[1..];
    }
  }

  // ---------------------------------------------------------------------
  // sorted_points

  /**
   * The corner order of `sorted_points` (documented as "left-top
   * clockwise"): after sorting by (x, y), the two left-most points give the
   * first and last corners and the two right-most the middle ones, each
   * pair ordered by y, the smaller y first (image coordinates: y grows
   * downwards). On equal y the second of the pair comes first.
   */
  function SortedPoints(ps: seq<Point>): (r: seq<Point>)
    requires |ps| == 4
    ensures |r| == 4 && multiset(r) == multiset(ps)
    ensures r[0].x <= r[1].x && r[0].x <= r[2].x
    ensures r[3].x <= r[1].x && r[3].x <= r[2].x
    ensures r[0].y <= r[3].y && r[1].y <= r[2].y
  {
    var b := SortLex(ps);
    assert LexLe(b[0], b[2]) && LexLe(b[0], b[3]) && LexLe(b[1], b[2]) && LexLe(b[1], b[3]);
    ArrangedIsPermutation(b, b[0].y < b[1].y, b[2].y < b[3].y);
    Arranged(b, b[0].y < b[1].y, b[2].y < b[3].y)
  }

  /**
   * The output rows of `sorted_points` from the sorted rows `b`: the left
   * pair (b[0], b[1]) gives corners 0 and 3, the right pair (b[2], b[3])
   * corners 1 and 2, each pair in its order or swapped.
   */
  function Arranged<T>(b: seq<T>, leftInOrder: bool, rightInOrder: bool): seq<T>
    requires |b| == 4
  {
    [if leftInOrder then b[0] else b[1],
     if rightInOrder then b[2] else b[3],
     if rightInOrder then b[3] else b[2],
     if leftInOrder then b[1] else b[0]]
  }

  lemma ArrangedIsPermutation<T>(b: seq<T>, leftInOrder: bool, rightInOrder: bool)
    requires |b| == 4
    ensures multiset(Arranged(b, leftInOrder, rightInOrder)) == multiset(b)
  {
    assert b == [b[0], b[1], b[2], b[3]];
    if leftInOrder && rightInOrder {
      BothInOrder(b[0], b[1], b[2], b[3]);
    } else if leftInOrder {
      RightSwapped(b[0], b[1], b[2], b[3]);
    } else if rightInOrder {
      LeftSwapped(b[0], b[1], b[2], b[3]);
    } else {
      BothSwapped(b[0], b[1], b[2], b[3]);
    }
  }

  // One small lemma per arrangement keeps each multiset proof cheap.
  lemma BothInOrder<T>(p: T, q: T, u: T, v: T)
    ensures multiset([p, u, v, q]) == multiset([p, q, u, v])
  {
  }

  lemma RightSwapped<T>(p: T, q: T, u: T, v: T)
    ensures multiset([p, v, u, q]) == multiset([p, q, u, v])
  {
  }

  lemma LeftSwapped<T>(p: T, q: T, u: T, v: T)
    ensures multiset([q, u, v, p]) == multiset([p, q, u, v])
  {
  }

  lemma BothSwapped<T>(p: T, q: T, u: T, v: T)
    ensures multiset([q, v, u, p]) == multiset([p, q, u, v])
  {
  }

  /** `sorted_points` depends on the set of corners only, not on their order. */
  lemma SortedPointsOrderFree(a: seq<Point>, b: seq<Point>)
    requires |a| == 4 && multiset(a) == multiset(b)
    ensures |b| == 4 && SortedPoints(a) == SortedPoints(b)
  {
    assert |b| == |multiset(b)| == |multiset(a)| == 4;
    SortedUnique(SortLex(a), SortLex(b));
  }

  /** The four corners of a box, top-left first and clockwise. */
  function BoxCorners(minx: int, miny: int, maxx: int, maxy: int): (r: seq<Point>)
    ensures |r| == 4
    ensures r[0].x == r[3].x == minx && r[1].x == r[2].x == maxx
    ensures r[0].y == r[1].y == miny && r[2].y == r[3].y == maxy
  {
    [Point(minx, miny), Point(maxx, miny), Point(maxx, maxy), Point(minx, maxy)]
  }

  /**
   * Any arrangement of the corners of a box with positive width and height
   * is put into top-left, top-right, bottom-right, bottom-left order.
   */
  lemma SortedPointsOfBox(ps: seq<Point>, minx: int, miny: int, maxx: int, maxy: int)
    requires minx < maxx && miny < maxy
    requires multiset(ps) == multiset(BoxCorners(minx, miny, maxx, maxy))
    ensures |ps| == 4 && SortedPoints(ps) == BoxCorners(minx, miny, maxx, maxy)
  {
    var c := BoxCorners(minx, miny, maxx, maxy);
    var byKey := [c[0], c[3], c[1], c[2]];
    assert LexSorted(byKey);
    assert multiset(byKey) == multiset(c);
    SortedUnique(SortLex(c), byKey);
    SortedPointsOrderFree(ps, c);
  }

  /** The 10x10 square: any order of its corners comes out top-left first, clockwise. */
  lemma SortedPointsSquare(ps: seq<Point>)
    requires multiset(ps) == multiset([Point(0, 10), Point(10, 10), Point(10, 0), Point(0, 0)])
    ensures |ps| == 4
    ensures SortedPoints(ps) == [Point(0, 0), Point(10, 0), Point(10, 10), Point(0, 10)]
  {
    assert multiset([Point(0, 10), Point(10, 10), Point(10, 0), Point(0, 0)])
        == multiset(BoxCorners(0, 0, 10, 10));
    SortedPointsOfBox(ps, 0, 0, 10, 10);
  }

  // ---------------------------------------------------------------------
  // Bounds, as `np.min` / `np.max` over one column of the point array

  datatype Axis = X | Y

  function Coord(p: Point, axis: Axis): int {
    match axis
    case X => p.x
    case Y => p.y
  }

  /** The smallest coordinate along `axis`. */
  function Least(ps: seq<Point>, axis: Axis): (r: int)
    requires |ps| > 0
    ensures exists k :: 0 <= k < |ps| && Coord(ps[k], axis) == r
    ensures forall k :: 0 <= k < |ps| ==> r <= Coord(ps[k], axis)
  {
    if |ps| == 1 then Coord(ps[0], axis)
    else
      var rest := Least(ps[1..], axis);
      assert forall k :: 1 <= k < |ps| ==> ps[k] == ps[1..][k - 1];
      if Coord(ps[0], axis) <= rest then Coord(ps[0], axis) else rest
  }

  /** The largest coordinate along `axis`. */
  function Greatest(ps: seq<Point>, axis: Axis): (r: int)
    requires |ps| > 0
    ensures exists k :: 0 <= k < |ps| && Coord(ps[k], axis) == r
    ensures forall k :: 0 <= k < |ps| ==> Coord(ps[k], axis) <= r
  {
    if |ps| == 1 then Coord(ps[0], axis)
    else
      var rest := Greatest(ps[1..], axis);
      assert forall k :: 1 <= k < |ps| ==> ps[k] == ps[1..][k - 1];
      if Coord(ps[0], axis) >= rest then Coord(ps[0], axis) else rest
  }

  lemma InPermutation(a: seq<Point>, b: seq<Point>, k: nat)
    requires multiset(a) == multiset(b) && k < |a|
    ensures exists j :: 0 <= j < |b| && b[j] == a[k]
  {
    assert a[k] in multiset(a);
    assert a[k] in b;
  }

  /** Bounds depend on the points only, not on their order. */
  lemma BoundsOfPermutation(a: seq<Point>, b: seq<Point>, axis: Axis)
    requires |a| > 0 && multiset(a) == multiset(b)
    ensures |b| > 0
    ensures Least(a, axis) == Least(b, axis) && Greatest(a, axis) == Greatest(b, axis)
  {
    assert |b| == |multiset(b)| == |multiset(a)| == |a|;
    var ka :| 0 <= ka < |a| && Coord(a[ka], axis) == Least(a, axis);
    var kb :| 0 <= kb < |b| && Coord(b[kb], axis) == Least(b, axis);
    var ga :| 0 <= ga < |a| && Coord(a[ga], axis) == Greatest(a, axis);
    var gb :| 0 <= gb < |b| && Coord(b[gb], axis) == Greatest(b, axis);
    InPermutation(a, b, ka);
    InPermutation(b, a, kb);
    InPermutation(a, b, ga);
    InPermutation(b, a, gb);
  }

  /** A coordinate no larger than any other is the least one. */
  lemma LeastIs(ps: seq<Point>, axis: Axis, k: nat)
    requires k < |ps|
    requires forall j :: 0 <= j < |ps| ==> Coord(ps[k], axis) <= Coord(ps[j], axis)
    ensures Least(ps, axis) == Coord(ps[k], axis)
  {
    var a :| 0 <= a < |ps| && Coord(ps[a], axis) == Least(ps, axis);
  }

  /** A coordinate no smaller than any other is the greatest one. */
  lemma GreatestIs(ps: seq<Point>, axis: Axis, k: nat)
    requires k < |ps|
    requires forall j :: 0 <= j < |ps| ==> Coord(ps[j], axis) <= Coord(ps[k], axis)
    ensures Greatest(ps, axis) == Coord(ps[k], axis)
  {
    var a :| 0 <= a < |ps| && Coord(ps[a], axis) == Greatest(ps, axis);
  }

  lemma BoxCornersBounds(minx: int, miny: int, maxx: int, maxy: int)
    requires minx <= maxx && miny <= maxy
    ensures var c := BoxCorners(minx, miny, maxx, maxy);
      Least(c, X) == minx && Greatest(c, X) == maxx &&
      Least(c, Y) == miny && Greatest(c, Y) == maxy
  {
    var c := BoxCorners(minx, miny, maxx, maxy);
    LeastIs(c, X, 0);
    GreatestIs(c, X, 1);
    LeastIs(c, Y, 0);
    GreatestIs(c, Y, 2);
  }

  // ---------------------------------------------------------------------
  // convertToRect

  /** The bounding box of `ps`, as four corners in box order. */
  function BoundingCorners(ps: seq<Point>): seq<Point>
    requires |ps| > 0
  {
    BoxCorners(Least(ps, X), Least(ps, Y), Greatest(ps, X), Greatest(ps, Y))
  }

  /**
   * The four points `convertToRect` computes: the corners of the bounding
   * box, put in `sorted_points` order.
   */
  function RectOf(ps: seq<Point>): (r: seq<Point>)
    requires |ps| > 0
    ensures |r| == 4
  {
    SortedPoints(BoundingCorners(ps))
  }

  /**
   * The rectangle consists of exactly the four corners of the bounding box
   * and has the same bounding box as the input.
   */
  lemma RectOfBounds(ps: seq<Point>)
    requires |ps| > 0
    ensures multiset(RectOf(ps)) == multiset(BoundingCorners(ps))
    ensures Least(RectOf(ps), X) == Least(ps, X) && Greatest(RectOf(ps), X) == Greatest(ps, X)
    ensures Least(RectOf(ps), Y) == Least(ps, Y) && Greatest(RectOf(ps), Y) == Greatest(ps, Y)
  {
    var c := BoundingCorners(ps);
    BoxCornersBounds(Least(ps, X), Least(ps, Y), Greatest(ps, X), Greatest(ps, Y));
    BoundsOfPermutation(c, RectOf(ps), X);
    BoundsOfPermutation(c, RectOf(ps), Y);
  }

  /** With positive width and height the box comes out top-left first, clockwise. */
  lemma RectOfProperBox(ps: seq<Point>)
    requires |ps| > 0
    requires Least(ps, X) < Greatest(ps, X) && Least(ps, Y) < Greatest(ps, Y)
    ensures RectOf(ps) == BoundingCorners(ps)
  {
    var c := BoundingCorners(ps);
    SortedPointsOfBox(c, Least(ps, X), Least(ps, Y), Greatest(ps, X), Greatest(ps, Y));
  }

  /** Collapsing to the bounding rectangle twice is the same as once. */
  lemma RectOfIdempotent(ps: seq<Point>)
    requires |ps| > 0
    ensures RectOf(RectOf(ps)) == RectOf(ps)
  {
    RectOfBounds(ps);
    assert BoundingCorners(RectOf(ps)) == BoundingCorners(ps);
  }

  // ---------------------------------------------------------------------
  // zoomPoint / zoomShape

  /** `zoomPoint`: the row moves by (-dx, -dy). */
  function ZoomPoint(p: Point, dx: int, dy: int): (r: Point)
    ensures Sub(p, r) == Point(dx, dy)
  {
    Point(p.x - dx, p.y - dy)
  }

  /**
   * The points `zoomShape(offset)` writes back. The rows are offset in the
   * order they are stored: the result of `sorted_points` is discarded in
   * the source, so nothing is reordered. Point 0 moves by (+o, +o), point 1
   * by (-o, +o), point 2 by (-o, -o), point 3 by (+o, -o); any further
   * points are written back unchanged.
   */
  function Zoomed(ps: seq<Point>, offset: int): (r: seq<Point>)
    requires |ps| >= 4
    ensures |r| == |ps|
    ensures r[0] == Add(ps[0], Point(offset, offset))
    ensures r[1] == Add(ps[1], Point(-offset, offset))
    ensures r[2] == Add(ps[2], Point(-offset, -offset))
    ensures r[3] == Add(ps[3], Point(offset, -offset))
    ensures forall k :: 4 <= k < |ps| ==> r[k] == ps[k]
  {
    ps[0 := ZoomPoint(ps[0], -offset, -offset)]
      [1 := ZoomPoint(ps[1], offset, -offset)]
      [2 := ZoomPoint(ps[2], offset, offset)]
      [3 := ZoomPoint(ps[3], -offset, offset)]
  }

  /** `zoomShape(o)` followed by `zoomShape(-o)` restores the points. */
  lemma ZoomedRoundTrip(ps: seq<Point>, offset: int)
    requires |ps| >= 4
    ensures Zoomed(Zoomed(ps, offset), -offset) == ps
  {
    var r := Zoomed(Zoomed(ps, offset), -offset);
    assert forall k :: 0 <= k < |ps| ==> r[k] == ps[k];
  }

  /**
   * On a box stored top-left first and clockwise, a positive offset moves
   * every side inwards by that offset (`zoomInShape` contracts).
   */
  lemma ZoomedBox(minx: int, miny: int, maxx: int, maxy: int, offset: int)
    ensures Zoomed(BoxCorners(minx, miny, maxx, maxy), offset)
         == BoxCorners(minx + offset, miny + offset, maxx - offset, maxy - offset)
  {
  }

  // ---------------------------------------------------------------------
  // moveBy

  /** Every point displaced by `offset`, in the same order. */
  function Translate(ps: seq<Point>, offset: Point): (r: seq<Point>)
    ensures |r| == |ps|
    ensures forall k :: 0 <= k < |ps| ==> Sub(r[k], ps[k]) == offset
  {
    seq(|ps|, k requires 0 <= k < |ps| => Add(ps[k], offset))
  }

  lemma TranslateRoundTrip(ps: seq<Point>, offset: Point)
    ensures Translate(Translate(ps, offset), Neg(offset)) == ps
  {
    var r := Translate(Translate(ps, offset), Neg(offset));
    forall k | 0 <= k < |ps| ensures r[k] == ps[k] {
      assert Sub(r[k], Translate(ps, offset)[k]) == Neg(offset);
    }
  }

  /** A translation moves the bounding box by exactly the offset. */
  lemma {:induction false} TranslateBounds(ps: seq<Point>, offset: Point, axis: Axis)
    requires |ps| > 0
    ensures Least(Translate(ps, offset), axis) == Least(ps, axis) + Coord(offset, axis)
    ensures Greatest(Translate(ps, offset), axis) == Greatest(ps, axis) + Coord(offset, axis)
  {
    var t := Translate(ps, offset);
    assert forall k :: 0 <= k < |ps| ==> Coord(t[k], axis) == Coord(ps[k], axis) + Coord(offset, axis);
    var a :| 0 <= a < |ps| && Coord(ps[a], axis) == Least(ps, axis);
    var b :| 0 <= b < |t| && Coord(t[b], axis) == Least(t, axis);
    var c :| 0 <= c < |ps| && Coord(ps[c], axis) == Greatest(ps, axis);
    var d :| 0 <= d < |t| && Coord(t[d], axis) == Greatest(t, axis);
  }

  // ---------------------------------------------------------------------
  // moveVertexBy

  /** `pre_i`: the previous index, wrapping from 0 to the last point. */
  function PrevIndex(i: nat, n: nat): nat
    requires i < n
  {
    if i - 1 > -1 then i - 1 else n - 1
  }

  /** `next_i`: the next index, always taken modulo 4. */
  function NextIndex(i: nat): nat {
    (i + 1) % 4
  }

  /**
   * The points after `moveVertexBy(i, offset)`. Point i moves by the
   * offset. When `rectAdjust` holds (the shape is a `polygon_rect`), the
   * two neighbours follow along one axis each: if the previous index is
   * the larger, the previous neighbour takes the x shift and the next the
   * y shift; otherwise the previous takes y and the next x (and when both
   * neighbours are the same point, it takes both). Every other point stays.
   */
  function MovedVertex(ps: seq<Point>, i: nat, offset: Point, rectAdjust: bool): (r: seq<Point>)
    requires i < |ps|
    requires rectAdjust ==> NextIndex(i) < |ps|
    ensures |r| == |ps|
    ensures r[i] == Add(ps[i], offset)
    ensures !rectAdjust ==> forall k :: 0 <= k < |ps| && k != i ==> r[k] == ps[k]
    ensures rectAdjust ==>
      var pre, next := PrevIndex(i, |ps|), NextIndex(i);
      (forall k :: 0 <= k < |ps| && k != i && k != pre && k != next ==> r[k] == ps[k]) &&
      (pre > next ==> r[pre] == Point(ps[pre].x + offset.x, ps[pre].y) &&
                      r[next] == Point(ps[next].x, ps[next].y + offset.y)) &&
      (pre < next ==> r[pre] == Point(ps[pre].x, ps[pre].y + offset.y) &&
                      r[next] == Point(ps[next].x + offset.x, ps[next].y)) &&
      (pre == next ==> r[pre] == Add(ps[pre], offset))
  {
    var moved := ps[i := Add(ps[i], offset)];
    if !rectAdjust then moved
    else
      var pre, next := PrevIndex(i, |ps|), NextIndex(i);
      if pre > next then
        var q := moved[pre := Point(moved[pre].x + offset.x, moved[pre].y)];
        q[next := Point(q[next].x, q[next].y + offset.y)]
      else
        var q := moved[pre := Point(moved[pre].x, moved[pre].y + offset.y)];
        q[next := Point(q[next].x + offset.x, q[next].y)]
  }

  /**
   * Four points forming an axis-aligned rectangle when read in order
   * top-left, top-right, bottom-right, bottom-left: each stored edge is
   * horizontal or vertical in turn.
   */
  predicate AxisAligned(ps: seq<Point>) {
    |ps| == 4 &&
    ps[0].y == ps[1].y && ps[1].x == ps[2].x && ps[2].y == ps[3].y && ps[3].x == ps[0].x
  }

  /** Dragging corner 0 or 1 of such a rectangle keeps it axis-aligned. */
  lemma MovedVertexKeepsRectAt01(ps: seq<Point>, i: nat, offset: Point)
    requires AxisAligned(ps) && i <= 1
    ensures AxisAligned(MovedVertex(ps, i, offset, true))
  {
  }

  /** Dragging corner 2 skews the rectangle: the top edge tilts. */
  lemma MovedVertexSkewsRectAt2()
    ensures var ps := BoxCorners(0, 0, 10, 10);
      AxisAligned(ps) && !AxisAligned(MovedVertex(ps, 2, Point(1, 1), true))
  {
    var r := MovedVertex(BoxCorners(0, 0, 10, 10), 2, Point(1, 1), true);
    assert r[0].y == 0 && r[1].y == 1;
  }

  /** Dragging corner 3 skews the rectangle: the bottom edge tilts. */
  lemma MovedVertexSkewsRectAt3()
    ensures var ps := BoxCorners(0, 0, 10, 10);
      AxisAligned(ps) && !AxisAligned(MovedVertex(ps, 3, Point(1, 1), true))
  {
    var r := MovedVertex(BoxCorners(0, 0, 10, 10), 3, Point(1, 1), true);
    assert r[2].y == 10 && r[3].y == 11;
  }

  // ---------------------------------------------------------------------
  // Hit testing: nearestVertex / nearestEdge

  /**
   * `r` is what a scan keeping a running minimum returns after the first
   * `n` distances of `ds`: a distance qualifies when it is at most
   * `cutoff`; the result is the first index with the least qualifying
   * distance, or None when no distance qualifies.
   */
  ghost predicate NearestAmong(ds: seq<int>, n: nat, cutoff: int, r: Option<nat>)
    requires n <= |ds|
  {
    match r
    case None => forall k :: 0 <= k < n ==> ds[k] > cutoff
    case Some(i) =>
      i < n && ds[i] <= cutoff &&
      (forall k :: 0 <= k < i && ds[k] <= cutoff ==> ds[k] > ds[i]) &&
      (forall k :: i < k < n && ds[k] <= cutoff ==> ds[k] >= ds[i])
  }

  /**
   * One step of the scan: distance n replaces the running answer exactly
   * when it qualifies and is strictly below the running minimum.
   */
  function ScanStep(ds: seq<int>, n: nat, cutoff: int, r: Option<nat>): Option<nat>
    requires n < |ds|
    requires r.Some? ==> r.value < |ds|
  {
    if ds[n] <= cutoff && (r.None? || ds[n] < ds[r.value]) then Some(n) else r
  }

  lemma ScanStepExtends(ds: seq<int>, n: nat, cutoff: int, r: Option<nat>)
    requires n < |ds| && NearestAmong(ds, n, cutoff, r)
    ensures NearestAmong(ds, n + 1, cutoff, ScanStep(ds, n, cutoff, r))
  {
  }

  /** The answer of the scan over all of `ds` (None for an empty list). */
  ghost predicate IsNearest(ds: seq<int>, cutoff: int, r: Option<nat>) {
    NearestAmong(ds, |ds|, cutoff, r)
  }

  /** The scan's answer is determined by the distances and the cutoff. */
  lemma IsNearestUnique(ds: seq<int>, cutoff: int, r1: Option<nat>, r2: Option<nat>)
    requires IsNearest(ds, cutoff, r1) && IsNearest(ds, cutoff, r2)
    ensures r1 == r2
  {
    if r1.Some? && r2.Some? {
      var i, j := r1.value, r2.value;
      if i != j {
        assert false;
      }
    }
  }

  /** Squared distances from `p` to each vertex. */
  function VertexDistances(ps: seq<Point>, p: Point): (ds: seq<int>)
    ensures |ds| == |ps|
    ensures forall k :: 0 <= k < |ps| ==> ds[k] >= 0 && (ds[k] == 0 <==> ps[k] == p)
  {
    seq(|ps|, k requires 0 <= k < |ps| => SqDist(ps[k], p))
  }

  /**
   * The squared cutoff for `distance <= epsilon`: `epsilon * epsilon` for a
   * non-negative epsilon, and below every squared distance otherwise.
   */
  function VertexCutoff(epsilon: int): int {
    if epsilon < 0 then -1 else epsilon * epsilon
  }

  /** A squared distance is within the cutoff exactly when the distance is within epsilon. */
  lemma VertexCutoffMeans(sq: int, epsilon: int)
    requires sq >= 0
    ensures sq <= VertexCutoff(epsilon) <==> 0 <= epsilon && sq <= epsilon * epsilon
  {
  }

  /** The endpoints of edge k: points k-1 and k, edge 0 closing from the last point. */
  function EdgeStart(ps: seq<Point>, k: nat): Point
    requires k < |ps|
  {
    if k == 0 then ps[|ps| - 1] else ps[k - 1]
  }

  /**
   * `dist(p, a, b)` for every edge (a, b); `dist` stands for
   * `labelme.utils.distancetoline`.
   */
  function EdgeDistances(ps: seq<Point>, p: Point, dist: (Point, Point, Point) -> int): (ds: seq<int>)
    ensures |ds| == |ps|
    ensures forall k :: 0 <= k < |ps| ==> ds[k] == dist(p, EdgeStart(ps, k), ps[k])
  {
    seq(|ps|, k requires 0 <= k < |ps| => dist(p, EdgeStart(ps, k), ps[k]))
  }
}
