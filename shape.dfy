/**
 * The annotation `Shape` of labelme/shape.py: a list of points, a shape
 * type tag, an open/closed flag and highlight state, with the list edits,
 * hit tests and coordinate transforms that the canvas applies to it.
 */
module ShapeModel {
  import opened Wrappers
  import opened PointUtils
  import opened ShapeGeometry

  /** The seven accepted values of `shape_type`. */
  datatype ShapeType = Polygon | PolygonRect | Rectangle | PointShape | Line | Circle | Linestrip

  /** The string stored for each shape type. */
  function Name(t: ShapeType): string {
    match t
    case Polygon => "polygon"
    case PolygonRect => "polygon_rect"
    case Rectangle => "rectangle"
    case PointShape => "point"
    case Line => "line"
    case Circle => "circle"
    case Linestrip => "linestrip"
  }

  const ShapeTypeNames: set<string> :=
    {"polygon", "polygon_rect", "rectangle", "point", "line", "circle", "linestrip"}

  /** `_highlightMode`: `Shape.MOVE_VERTEX` or `Shape.NEAR_VERTEX`. */
  datatype HighlightMode = MoveVertex | NearVertex

  /** The `ValueError` raised by the `shape_type` setter. */
  datatype ShapeError = InvalidShapeType(value: string)

  /**
   * The validation of the `shape_type` setter: no value means "polygon";
   * a listed name is accepted as given; anything else is rejected.
   */
  function ParseShapeType(value: Option<string>): (r: Option<ShapeType>)
    ensures value.None? ==> r == Some(Polygon)
    ensures r.Some? <==> value.GetOr("polygon") in ShapeTypeNames
    ensures r.Some? ==> Name(r.value) == value.GetOr("polygon")
  {
    var v := value.GetOr("polygon");
    if v == "polygon" then Some(Polygon)
    else if v == "polygon_rect" then Some(PolygonRect)
    else if v == "rectangle" then Some(Rectangle)
    else if v == "point" then Some(PointShape)
    else if v == "line" then Some(Line)
    else if v == "circle" then Some(Circle)
    else if v == "linestrip" then Some(Linestrip)
    else None
  }

  /** Reading a stored type back through the setter gives the same type. */
  lemma ParseName(t: ShapeType)
    ensures ParseShapeType(Some(Name(t))) == Some(t)
  {
  }

  /** `list.insert(i, p)` for an index within the list. */
  function InsertAt(s: seq<Point>, i: nat, p: Point): (r: seq<Point>)
    requires i <= |s|
    ensures |r| == |s| + 1 && r[i] == p
    ensures forall k :: 0 <= k < i ==> r[k] == s[k]
    ensures forall k :: i < k < |r| ==> r[k] == s[k - 1]
  {
    s[..i] + [p] + s[i..]
  }

  /** `list.pop(i)` for an index within the list. */
  function RemoveAt(s: seq<Point>, i: nat): (r: seq<Point>)
    requires i < |s|
    ensures |r| == |s| - 1
    ensures forall k :: 0 <= k < i ==> r[k] == s[k]
    ensures forall k :: i <= k < |r| ==> r[k] == s[k + 1]
  {
    s[..i] + s[i + 1..]
  }

  /** Removing the point just inserted restores the list. */
  lemma RemoveAtInsertAt(s: seq<Point>, i: nat, p: Point)
    requires i <= |s|
    ensures RemoveAt(InsertAt(s, i, p), i) == s
  {
    var r := RemoveAt(InsertAt(s, i, p), i);
    assert forall k :: 0 <= k < |s| ==> r[k] == s[k];
  }

  /**
   * The fourth point `onMousePress` adds to three clicks a, b, c coincides
   * with the first click exactly when the last two clicks coincide; only
   * then does `addPoint` close the shape instead of appending.
   */
  lemma FourthPointIsFirstIff(a: Point, b: Point, c: Point)
    ensures CalcFourthPoint(c, a, b) == a <==> b == c
  {
    var d := CalcFourthPoint(c, a, b);
    assert Add(d, b) == Add(c, a);
  }

  /**
   * The clicks a, b, c followed by the computed fourth point d form a
   * parallelogram: the sides a-b and d-c are equal vectors, as are b-c
   * and a-d.
   */
  lemma CompletedQuadIsParallelogram(a: Point, b: Point, c: Point)
    ensures var d := CalcFourthPoint(c, a, b);
      Sub(b, a) == Sub(c, d) && Sub(c, b) == Sub(d, a)
  {
    var d := CalcFourthPoint(c, a, b);
    assert Add(d, b) == Add(c, a);
  }

  class Shape {
    var labelText: Option<string>
    var groupId: Option<int>
    var points: seq<Point>
    var fill: bool
    var selected: bool
    var shapeType: ShapeType
    var flags: Option<map<string, bool>>
    var highlightIndex: Option<int>
    var highlightMode: HighlightMode
    var closed: bool

    /** `__init__` once the shape type has been validated. */
    constructor (labelText: Option<string>, shapeType: ShapeType,
                 flags: Option<map<string, bool>>, groupId: Option<int>)
      ensures this.labelText == labelText && this.groupId == groupId
      ensures this.shapeType == shapeType && this.flags == flags
      ensures points == [] && !fill && !selected && !closed
      ensures highlightIndex == None && highlightMode == NearVertex
    {
      this.labelText := labelText;
      this.groupId := groupId;
      points := [];
      fill := false;
      selected := false;
      this.shapeType := shapeType;
      this.flags := flags;
      highlightIndex := None;
      highlightMode := NearVertex;
      closed := false;
    }

    /**
     * `Shape(label, line_color, shape_type, flags, group_id)`: a new empty,
     * open shape, or the setter's error for an unknown shape type.
     */
    static method Create(labelText: Option<string>, shapeType: Option<string>,
                         flags: Option<map<string, bool>>, groupId: Option<int>)
      returns (r: Result<Shape, ShapeError>)
      ensures r.Failure? <==> shapeType.GetOr("polygon") !in ShapeTypeNames
      ensures r.Failure? ==> r.error == InvalidShapeType(shapeType.GetOr("polygon"))
      ensures r.Success? ==>
        fresh(r.value) && Name(r.value.shapeType) == shapeType.GetOr("polygon") &&
        r.value.labelText == labelText && r.value.groupId == groupId && r.value.flags == flags &&
        r.value.points == [] && !r.value.closed && !r.value.fill && !r.value.selected &&
        r.value.highlightIndex == None && r.value.highlightMode == NearVertex
    {
      var t := ParseShapeType(shapeType);
      if t.None? {
        return Failure(InvalidShapeType(shapeType.GetOr("polygon")));
      }
      var s := new Shape(labelText, t.value, flags, groupId);
      return Success(s);
    }

    /** The `shape_type` setter: on an unknown name nothing is stored. */
    method SetShapeType(value: Option<string>) returns (err: Option<ShapeError>)
      modifies this`shapeType
      ensures err.None? <==> value.GetOr("polygon") in ShapeTypeNames
      ensures err.None? ==> Name(shapeType) == value.GetOr("polygon")
      ensures err.Some? ==>
        err.value == InvalidShapeType(value.GetOr("polygon")) && shapeType == old(shapeType)
    {
      var t := ParseShapeType(value);
      if t.None? {
        return Some(InvalidShapeType(value.GetOr("polygon")));
      }
      shapeType := t.value;
      return None;
    }

    method Close()
      modifies this`closed
      ensures closed
    {
      closed := true;
    }

    method SetOpen()
      modifies this`closed
      ensures !closed
    {
      closed := false;
    }

    function IsClosed(): (c: bool)
      reads this
      ensures c == closed
    {
      closed
    }

    /**
     * A click on the first point closes the shape; any other point is
     * appended.
     */
    method AddPoint(p: Point)
      modifies this`points, this`closed
      ensures old(points) != [] && p == old(points)[0] ==> closed && points == old(points)
      ensures !(old(points) != [] && p == old(points)[0]) ==>
        points == old(points) + [p] && closed == old(closed)
    {
      if points != [] && p == points[0] {
        Close();
      } else {
        points := points + [p];
      }
    }

    /** Only polygons and line strips take further points. */
    function CanAddPoint(): (r: bool)
      reads this
      ensures r <==> Name(shapeType) in {"polygon", "linestrip"}
    {
      shapeType == Polygon || shapeType == Linestrip
    }

    /** Removes and returns the last point, or None when there is none. */
    method PopPoint() returns (r: Option<Point>)
      modifies this`points
      ensures old(points) == [] ==> r.None? && points == []
      ensures old(points) != [] ==> r.Some? && points + [r.value] == old(points)
    {
      if points == [] {
        return None;
      }
      r := Some(points[|points| - 1]);
      points := points[..|points| - 1];
    }

    method InsertPoint(i: nat, p: Point)
      requires i <= |points|
      modifies this`points
      ensures points == InsertAt(old(points), i, p)
    {
      points := points[..i] + [p] + points[i..];
    }

    method RemovePoint(i: nat)
      requires i < |points|
      modifies this`points
      ensures points == RemoveAt(old(points), i)
    {
      points := points[..i] + points[i + 1..];
    }

    /**
     * The index of the vertex nearest to `p` among those within `epsilon`,
     * the first one on a tie, or None. Distances are compared squared.
     */
    method NearestVertex(p: Point, epsilon: int) returns (r: Option<nat>)
      ensures IsNearest(VertexDistances(points, p), VertexCutoff(epsilon), r)
    {
      ghost var ds := VertexDistances(points, p);
      var cutoff := VertexCutoff(epsilon);
      var minDistance: Option<int> := None;  // None stands for float("inf")
      r := None;
      var i := 0;
      while i < |points|
        invariant 0 <= i <= |points|
        invariant NearestAmong(ds, i, cutoff, r)
        invariant r.None? <==> minDistance.None?
        invariant r.Some? ==> minDistance == Some(ds[r.value])
      {
        var dist := SqDist(points[i], p);
        ScanStepExtends(ds, i, cutoff, r);
        if dist <= cutoff && (minDistance.None? || dist < minDistance.value) {
          minDistance := Some(dist);
          r := Some(i);
        }
        i := i + 1;
      }
    }

    /**
     * The index of the edge nearest to `p` among those within `epsilon`,
     * the first one on a tie, or None. Edge i joins points i-1 and i, so
     * edge 0 is the closing edge from the last point; `dist` stands for
     * the point-to-line distance.
     */
    method NearestEdge(p: Point, epsilon: int, dist: (Point, Point, Point) -> int)
      returns (r: Option<nat>)
      ensures IsNearest(EdgeDistances(points, p, dist), epsilon, r)
    {
      ghost var ds := EdgeDistances(points, p, dist);
      var minDistance: Option<int> := None;  // None stands for float("inf")
      r := None;
      var i := 0;
      while i < |points|
        invariant 0 <= i <= |points|
        invariant NearestAmong(ds, i, epsilon, r)
        invariant r.None? <==> minDistance.None?
        invariant r.Some? ==> minDistance == Some(ds[r.value])
      {
        var d := dist(p, EdgeStart(points, i), points[i]);
        ScanStepExtends(ds, i, epsilon, r);
        if d <= epsilon && (minDistance.None? || d < minDistance.value) {
          minDistance := Some(d);
          r := Some(i);
        }
        i := i + 1;
      }
    }

    method MoveBy(offset: Point)
      modifies this`points
      ensures points == Translate(old(points), offset)
    {
      var ps := points;
      points := seq(|ps|, k requires 0 <= k < |ps| => Add(ps[k], offset));
    }

    /**
     * Drags vertex i by `offset`; a `polygon_rect` drags its two
     * neighbours along one axis each.
     */
    method MoveVertexBy(i: nat, offset: Point)
      requires i < |points|
      requires shapeType == PolygonRect ==> NextIndex(i) < |points|
      modifies this`points
      ensures points == MovedVertex(old(points), i, offset, shapeType == PolygonRect)
    {
      points := points[i := Add(points[i], offset)];
      if shapeType == PolygonRect {
        var pre := if i - 1 > -1 then i - 1 else |points| - 1;
        var next := (i + 1) % 4;
        if pre > next {
          points := points[pre := Point(points[pre].x + offset.x, points[pre].y)];
          points := points[next := Point(points[next].x, points[next].y + offset.y)];
        } else {
          points := points[pre := Point(points[pre].x, points[pre].y + offset.y)];
          points := points[next := Point(points[next].x + offset.x, points[next].y)];
        }
      }
    }

    method HighlightVertex(i: int, action: HighlightMode)
      modifies this`highlightIndex, this`highlightMode
      ensures highlightIndex == Some(i) && highlightMode == action
    {
      highlightIndex := Some(i);
      highlightMode := action;
    }

    method HighlightClear()
      modifies this`highlightIndex
      ensures highlightIndex == None
    {
      highlightIndex := None;
    }

    /** A new shape with the same fields; it shares no state with this one. */
    method Copy() returns (c: Shape)
      ensures fresh(c)
      ensures c.labelText == labelText && c.groupId == groupId && c.points == points
      ensures c.fill == fill && c.selected == selected && c.shapeType == shapeType
      ensures c.flags == flags && c.closed == closed
      ensures c.highlightIndex == highlightIndex && c.highlightMode == highlightMode
    {
      c := new Shape(labelText, shapeType, flags, groupId);
      c.points := points;
      c.fill := fill;
      c.selected := selected;
      c.closed := closed;
      c.highlightIndex := highlightIndex;
      c.highlightMode := highlightMode;
    }

    /** `__len__`. */
    function Length(): (n: nat)
      reads this
      ensures n == |points|
    {
      |points|
    }

    /** `__getitem__` for an index within the list. */
    function Get(i: nat): (p: Point)
      reads this
      requires i < |points|
      ensures p == points[i]
    {
      points[i]
    }

    /** `__setitem__` for an index within the list. */
    method Set(i: nat, value: Point)
      requires i < |points|
      modifies this`points
      ensures |points| == |old(points)| && points[i] == value
      ensures forall k :: 0 <= k < |points| && k != i ==> points[k] == old(points)[k]
    {
      points := points[i := value];
    }

    /**
     * Offsets the first four points by the corner rule of `Zoomed`, in
     * their stored order, and writes every row back.
     */
    method ZoomShape(offset: int)
      requires |points| >= 4
      modifies this`points
      ensures points == Zoomed(old(points), offset)
    {
      var rows := points;
      rows := rows[0 := ZoomPoint(rows[0], -offset, -offset)];
      rows := rows[1 := ZoomPoint(rows[1], offset, -offset)];
      rows := rows[2 := ZoomPoint(rows[2], offset, offset)];
      rows := rows[3 := ZoomPoint(rows[3], -offset, offset)];
      WriteBack(rows, |points|);
    }

    method ZoomInShape()
      requires |points| >= 4
      modifies this`points
      ensures points == Zoomed(old(points), 1)
    {
      ZoomShape(1);
    }

    method ZoomOutShape()
      requires |points| >= 4
      modifies this`points
      ensures points == Zoomed(old(points), -1)
    {
      ZoomShape(-1);
    }

    /**
     * With exactly three points, adds the fourth corner of the
     * parallelogram (through `AddPoint`), closes the shape and answers
     * true; otherwise changes nothing and answers false.
     */
    method OnMousePress() returns (done: bool)
      modifies this`points, this`closed
      ensures done <==> |old(points)| == 3
      ensures done ==> closed
      ensures done ==> var d := CalcFourthPoint(old(points)[2], old(points)[0], old(points)[1]);
        points == if d == old(points)[0] then old(points) else old(points) + [d]
      ensures !done ==> points == old(points) && closed == old(closed)
    {
      if |points| == 3 {
        var d := CalcFourthPoint(points[2], points[0], points[1]);
        AddPoint(d);
        Close();
        return true;
      }
      return false;
    }

    /**
     * Overwrites the points with the corners of their bounding box in
     * `sorted_points` order. The write-back covers the stored points only,
     * so with fewer than four points only the first corners are written.
     */
    method ConvertToRect()
      requires 0 < |points| <= 4
      modifies this`points
      ensures points == RectOf(old(points))[..|old(points)|]
    {
      var n := |points|;
      var rect := RectOf(points);
      WriteBack(rect, n);
    }

    /**
     * The write-back loop of `zoomShape` and `convertToRect`: row k of
     * `rows` is stored into point k, for every stored point.
     */
    method WriteBack(rows: seq<Point>, n: nat)
      requires n == |points| && n <= |rows|
      modifies this`points
      ensures points == rows[..n]
    {
      for i := 0 to n
        invariant |points| == n
        invariant forall k :: 0 <= k < i ==> points[k] == rows[k]
      {
        points := points[i := rows[i]];
      }
    }
  }

  /** A second `convertToRect` leaves the result of the first unchanged. */
  method ConvertToRectTwice(s: Shape)
    requires |s.points| == 4
    modifies s
    ensures s.points == RectOf(old(s.points))
  {
    ghost var before := s.points;
    s.ConvertToRect();
    WholeRect(before);
    ghost var once := s.points;
    s.ConvertToRect();
    WholeRect(once);
    RectOfIdempotent(before);
  }

  /** All four rows of a rectangle are written back. */
  lemma WholeRect(ps: seq<Point>)
    requires |ps| > 0
    ensures RectOf(ps)[..4] == RectOf(ps)
  {
  }

  /** `zoomShape(o)` followed by `zoomShape(-o)` restores every point. */
  method ZoomThenUnzoom(s: Shape, offset: int)
    requires |s.points| >= 4
    modifies s
    ensures s.points == old(s.points)
  {
    s.ZoomShape(offset);
    s.ZoomShape(-offset);
    ZoomedRoundTrip(old(s.points), offset);
  }

  /** Editing a copy's points leaves the original as it was. */
  method CopyIsIndependent(s: Shape, i: nat, p: Point) returns (c: Shape)
    requires i < |s.points|
    ensures fresh(c) && c.points == s.points[i := p]
    ensures unchanged(s)
  {
    c := s.Copy();
    c.Set(i, p);
  }
}
