# labelme `Shape`: a Dafny model

This project models the point-list core of labelme's annotation `Shape`
(labelme/shape.py) and the parallelogram helpers it uses
(labelme/utils/point.py), and proves properties of that model.

A `Shape` holds:

- an ordered list of 2-D points;
- a shape type, one of seven names;
- an open/closed flag;
- highlight state.

The canvas edits the list in these ways:

- append with auto-close on the first point;
- pop, insert, remove and index;
- hit-test it: the nearest vertex or edge within an epsilon, first index on a tie;
- transform it: translate, drag one vertex (a `polygon_rect` drags its neighbours along), zoom by per-corner offsets, collapse to the bounding rectangle;
- complete three clicks to a parallelogram.

The project has four modules, in four files:

- `PointUtils` (point.dfy): integer points, squared distance, `CalcFourthPoint` and `JudgeBeveling`.
- `ShapeGeometry` (geometry.dfy): the value-level specifications. These are the `sorted_points` corner order (over an insertion sort standing for Python's `sorted`), bounding boxes, `zoomShape`'s offsets, translation, the `moveVertexBy` neighbour rule, and the "nearest within a cutoff, first on a tie" predicate for the two hit-test scans.
- `ShapeModel` (shape.dfy): the `Shape` class. Its `points` field is a `seq<Point>` that the methods reassign. Its hit tests and write-backs are loops proved against the `ShapeGeometry` specifications. A few client methods at module level show the class-level round trips.
- `Wrappers` (wrappers.dfy): `Option` and `Result`.

Modelling conventions:

- Coordinates are integers. The code only adds, subtracts and compares them.
- `CalcEuclideanDistance` and `labelme.utils.distance` appear only in comparisons. They are modelled by the squared distance.
- The test `distance <= epsilon` becomes `squared <= VertexCutoff(epsilon)`. The cutoff is `epsilon*epsilon` for a non-negative epsilon, and below every squared distance otherwise (`VertexCutoffMeans`).
- `labelme.utils.distancetoline` is not part of this model. `nearestEdge` takes it as a function parameter `dist`, so only its scan and tie-break are verified.
- The shape type is a datatype. "Stored verbatim" reads `Name(shapeType) == value`.
- Python exceptions become `Option`/`Result` values where the caller can observe them: the `shape_type` setter and the constructor. Out-of-range list indices become preconditions.

Behaviours the model keeps as the code has them:

- `zoomShape` calls `sorted_points` but discards its result (labelme/shape.py:324). The zoom therefore offsets points 0..3 in their stored order, not in corner order.
- `convertToRect` writes back one row per stored point (labelme/shape.py:390-392). It is modelled for 1 to 4 points: fewer than 4 points receive only the first corners.
- `moveVertexBy`'s `polygon_rect` rule keeps an axis-aligned rectangle (stored top-left first, clockwise) only when vertex 0 or 1 is dragged. For vertices 2 and 3 the lemmas give concrete inputs where the rectangle is skewed. The model reproduces the rule as written.

## Model

| member | source | states |
|---|---|---|
| PointUtils.SqDist | labelme/utils/point.py:6-10 | the (squared) distance is never negative and is zero exactly when the two points are equal |
| PointUtils.SqDistSymmetric | labelme/utils/point.py:6-10 | the distance from p to q equals the distance from q to p |
| PointUtils.CalcFourthPoint | labelme/utils/point.py:12-14 | the result d satisfies d + p3 == p1 + p2 (the diagonals share a midpoint), equivalently d - p1 == p2 - p3 and d - p2 == p1 - p3 |
| PointUtils.CalcFourthPointSymmetric | labelme/utils/point.py:13 | swapping the first two arguments gives the same point |
| PointUtils.FirstMaxIndex | labelme/utils/point.py:17-21 | `dist.index(max(dist))`: an index into the three distances whose entry is the maximum, with every earlier entry strictly smaller (first maximum on ties) |
| PointUtils.JudgeBeveling | labelme/utils/point.py:16-28 | for each case of the first longest side, the result plus the remaining point equals the sum of the longest side's endpoints |
| PointUtils.JudgeBevelingAgreesWithClickOrder | labelme/utils/point.py:16-28 | when the first-to-third side is strictly the longest, the result equals the click-order completion `CalcFourthPoint(c, a, b)` that `onMousePress` uses |
| PointUtils.JudgeBevelingDiffersFromClickOrder | labelme/utils/point.py:22-27 | on (0,0), (2,1), (2,0) the longest-side guess and the click-order completion differ |
| ShapeGeometry.SortLex | labelme/shape.py:344 | `sorted` by the key (x, y): same length, a permutation of the input, and ordered by the tuple order |
| ShapeGeometry.SortedUnique | labelme/shape.py:344 | two sequences sorted by (x, y) with the same multiset are equal, so the sort's result depends only on the multiset |
| ShapeGeometry.SortedPoints | labelme/shape.py:336-356 | four points come out as a permutation of the input; corners 0 and 3 have x no larger than corners 1 and 2; corner 0's y is at most corner 3's, corner 1's at most corner 2's |
| ShapeGeometry.ArrangedIsPermutation | labelme/shape.py:347-354 | each of the four ways of picking rows from the sorted pairs uses every row exactly once |
| ShapeGeometry.SortedPointsOrderFree | labelme/shape.py:336-356 | the output depends only on the multiset of the four inputs, not on their order |
| ShapeGeometry.BoxCorners | labelme/shape.py:383-387 | the four rows (minx,miny), (maxx,miny), (maxx,maxy), (minx,maxy): corners 0,3 on the left, 1,2 on the right, 0,1 on top, 2,3 at the bottom |
| ShapeGeometry.SortedPointsOfBox | labelme/shape.py:336-356 | any order of the corners of a box with positive width and height is put in top-left, top-right, bottom-right, bottom-left order |
| ShapeGeometry.SortedPointsSquare | labelme/shape.py:336-356 | every order of the corners of the 10x10 square comes out as (0,0), (10,0), (10,10), (0,10) |
| ShapeGeometry.Least | labelme/shape.py:379-382 | `np.min` of a column: attained by some point and a lower bound of all points |
| ShapeGeometry.Greatest | labelme/shape.py:379-382 | `np.max` of a column: attained by some point and an upper bound of all points |
| ShapeGeometry.BoundsOfPermutation | labelme/shape.py:379-382 | reordering the points leaves each column's min and max unchanged |
| ShapeGeometry.BoxCornersBounds | labelme/shape.py:379-387 | the box built from minx, miny, maxx, maxy has exactly those bounds |
| ShapeGeometry.RectOf | labelme/shape.py:374-389 | the rectangle `convertToRect` computes has four rows |
| ShapeGeometry.RectOfBounds | labelme/shape.py:374-389 | the rectangle consists of exactly the bounding-box corners and has the same min and max in x and y as the input |
| ShapeGeometry.RectOfProperBox | labelme/shape.py:374-389 | with minx < maxx and miny < maxy the rows are [(minx,miny), (maxx,miny), (maxx,maxy), (minx,maxy)] |
| ShapeGeometry.RectOfIdempotent | labelme/shape.py:374-392 | collapsing the rectangle again gives the same rectangle |
| ShapeGeometry.ZoomPoint | labelme/shape.py:315-317 | the row moves by exactly (-dx, -dy) |
| ShapeGeometry.Zoomed | labelme/shape.py:319-331 | same length; point 0 moves by (+o,+o), 1 by (-o,+o), 2 by (-o,-o), 3 by (+o,-o), in stored order; any further points are unchanged |
| ShapeGeometry.ZoomedRoundTrip | labelme/shape.py:319-331 | zooming by o and then by -o restores every point |
| ShapeGeometry.ZoomedBox | labelme/shape.py:319-331 | on a box stored top-left first and clockwise, zooming by o moves every side inwards by o |
| ShapeGeometry.Translate | labelme/shape.py:266-267 | same length, and every point moves by exactly the offset |
| ShapeGeometry.TranslateRoundTrip | labelme/shape.py:266-267 | translating by o and then by -o restores the points |
| ShapeGeometry.TranslateBounds | labelme/shape.py:266-267 | translation moves the min and max of each column by the offset's coordinate |
| ShapeGeometry.MovedVertex | labelme/shape.py:269-279 | point i moves by the offset; for a `polygon_rect`, pre = i-1 (or the last index when i is 0) and next = (i+1)%4 move along x/y or y/x according to pre > next; every other point is unchanged |
| ShapeGeometry.MovedVertexKeepsRectAt01 | labelme/shape.py:272-279 | dragging vertex 0 or 1 of an axis-aligned rectangle keeps it axis-aligned |
| ShapeGeometry.MovedVertexSkewsRectAt2 | labelme/shape.py:272-279 | dragging vertex 2 of the 10x10 box by (1,1) gives a shape that is not axis-aligned |
| ShapeGeometry.MovedVertexSkewsRectAt3 | labelme/shape.py:272-279 | dragging vertex 3 of the 10x10 box by (1,1) gives a shape that is not axis-aligned |
| ShapeGeometry.ScanStepExtends | labelme/shape.py:217-219 | one loop step (replace the running answer when the distance qualifies and is strictly below the running minimum) extends the nearest-so-far invariant by one index |
| ShapeGeometry.IsNearestUnique | labelme/shape.py:212-231 | the nearest-within-cutoff answer (first index on a tie) is determined by the distances and the cutoff |
| ShapeGeometry.VertexDistances | labelme/shape.py:216 | one non-negative distance per vertex, zero exactly at vertices equal to the query point |
| ShapeGeometry.VertexCutoffMeans | labelme/shape.py:217 | a squared distance is within the cutoff exactly when epsilon is non-negative and the squared distance is at most epsilon squared |
| ShapeGeometry.EdgeDistances | labelme/shape.py:224-226 | edge k's distance is `dist` to the segment from point k-1 to point k, with edge 0 running from the last point to point 0 |
| ShapeModel.ParseShapeType | labelme/shape.py:88-102 | no value means "polygon"; a value is accepted exactly when it is one of the seven names, and the accepted type's name is the value |
| ShapeModel.ParseName | labelme/shape.py:88-102 | every stored type's name is accepted back as that same type |
| ShapeModel.InsertAt | labelme/shape.py:121-122 | `list.insert(i, p)`: one longer, p at i, earlier points in place, later points shifted up by one |
| ShapeModel.RemoveAt | labelme/shape.py:124-125 | `list.pop(i)`: one shorter, earlier points in place, later points shifted down by one |
| ShapeModel.RemoveAtInsertAt | labelme/shape.py:121-125 | removing the point just inserted at i restores the list |
| ShapeModel.FourthPointIsFirstIff | labelme/shape.py:358-368 | the completed fourth point equals the first click exactly when the last two clicks coincide; only then does `addPoint` close instead of appending |
| ShapeModel.CompletedQuadIsParallelogram | labelme/shape.py:363-364 | the clicks a, b, c and the added point d have equal opposite side vectors: b - a == c - d and c - b == d - a |
| ShapeModel.Shape.constructor | labelme/shape.py:50-82 | a new shape has the given label, group, type and flags, no points, is open, unfilled, unselected, with no highlighted vertex and the near-vertex mode |
| ShapeModel.Shape.Create | labelme/shape.py:50-82 | construction fails with the setter's error exactly when the type name is not accepted; otherwise a fresh shape in the initial state whose type name is the value given ("polygon" when none) |
| ShapeModel.Shape.SetShapeType | labelme/shape.py:88-102 | an accepted name is stored as given; an unknown one is reported and the stored type is unchanged |
| ShapeModel.Shape.Close | labelme/shape.py:104-105 | the shape is closed |
| ShapeModel.Shape.SetOpen | labelme/shape.py:130-131 | the shape is open |
| ShapeModel.Shape.IsClosed | labelme/shape.py:127-128 | answers the closed flag |
| ShapeModel.Shape.AddPoint | labelme/shape.py:107-111 | a point equal to the first point closes the shape and leaves the points unchanged; any other point is appended and the closed flag is unchanged |
| ShapeModel.Shape.CanAddPoint | labelme/shape.py:113-114 | true exactly when the type name is "polygon" or "linestrip" |
| ShapeModel.Shape.PopPoint | labelme/shape.py:116-119 | on an empty list answers None and changes nothing; otherwise removes and answers the last point |
| ShapeModel.Shape.InsertPoint | labelme/shape.py:121-122 | the points become `InsertAt(old points, i, p)` |
| ShapeModel.Shape.RemovePoint | labelme/shape.py:124-125 | the points become `RemoveAt(old points, i)` |
| ShapeModel.Shape.NearestVertex | labelme/shape.py:212-220 | the answer is the first vertex with the least distance among those within epsilon, or None when there are none |
| ShapeModel.Shape.NearestEdge | labelme/shape.py:222-231 | the answer is the first edge (edge 0 closing from the last point) with the least `dist` among those within epsilon, or None when there are none |
| ShapeModel.Shape.MoveBy | labelme/shape.py:266-267 | the points become their translation by the offset |
| ShapeModel.Shape.MoveVertexBy | labelme/shape.py:269-279 | the points become `MovedVertex` of the old points, with the neighbour rule applied exactly when the type is `polygon_rect` |
| ShapeModel.Shape.HighlightVertex | labelme/shape.py:281-290 | the highlighted index and mode become the given ones |
| ShapeModel.Shape.HighlightClear | labelme/shape.py:292-294 | no vertex is highlighted |
| ShapeModel.Shape.Copy | labelme/shape.py:296-297 | a fresh shape whose every field equals this one's |
| ShapeModel.Shape.Length | labelme/shape.py:299-300 | the number of points |
| ShapeModel.Shape.Get | labelme/shape.py:302-303 | the point at index i |
| ShapeModel.Shape.Set | labelme/shape.py:305-306 | point i becomes the value, every other point and the length unchanged |
| ShapeModel.Shape.ZoomShape | labelme/shape.py:319-331 | the points become `Zoomed(old points, offset)` |
| ShapeModel.Shape.ZoomInShape | labelme/shape.py:308-309 | the points become `Zoomed(old points, 1)` |
| ShapeModel.Shape.ZoomOutShape | labelme/shape.py:333-334 | the points become `Zoomed(old points, -1)` |
| ShapeModel.Shape.OnMousePress | labelme/shape.py:358-368 | answers true exactly when there were three points; then the completed fourth point is added through `addPoint` and the shape is closed; otherwise nothing changes |
| ShapeModel.Shape.ConvertToRect | labelme/shape.py:374-392 | each stored point is overwritten by the corresponding row of the sorted bounding rectangle |
| ShapeModel.Shape.WriteBack | labelme/shape.py:390-392 | the write-back loop stores row k into point k for every stored point |
| ShapeModel.ConvertToRectTwice | labelme/shape.py:374-392 | on four points, two calls of `convertToRect` give the result of one |
| ShapeModel.ZoomThenUnzoom | labelme/shape.py:319-334 | `zoomShape(o)` then `zoomShape(-o)` restores the points |
| ShapeModel.CopyIsIndependent | labelme/shape.py:296-306 | setting a point of a copy leaves the original unchanged |

## Left out

- Rendering is Qt drawing and is not modelled: `paint`, `drawVertex`, the colour class attributes, `point_size`, `scale`, `line_color` and `_highlightSettings`.
- `makePath`, `containsPoint`, `boundingRect`, `getRectFromLine` and `getCircleRectFromLine` are not modelled. They build Qt paths and rectangles and rely on Qt's containment and bounding box, and the circle version uses floating-point `sqrt`.
- `other_data` is not modelled. No modelled operation reads it.
- `onMouseMove` is not modelled. It only prints and answers false.
- Floating-point coordinates are modelled as integers, and the Euclidean norm as the squared distance. Rounding is not modelled.
- labelme/utils/distance and `distancetoline` are not part of this model. The vertex distance is the squared distance. The edge distance is the parameter `dist` of `NearestEdge`.
- `QPointF`'s fuzzy equality in `addPoint` is modelled as exact equality.
- `copy.deepcopy` is modelled as a fresh object with equal fields. Points are values, so the copy shares nothing.
- Python's negative and clamped list indices are modelled as preconditions: `0 <= i <= len` for insert, `0 <= i < len` for remove and indexing.
- `QPointF` objects are mutable and shared. They are modelled as values, so aliasing between point objects is not modelled.
- ShapeModel.Shape.ZoomShape: requires at least four points. With fewer, the source raises `IndexError`, and that error path is not modelled.
- ShapeModel.Shape.ConvertToRect: requires 1 to 4 points. With none, the empty array is one-dimensional and the column index `points[:, 0]` (labelme/shape.py:379) raises `IndexError`. With more than four, the write-back raises `IndexError` after writing four rows.
- ShapeModel.Shape.MoveVertexBy: requires `(i + 1) % 4` to be a valid index for a `polygon_rect`. Otherwise the source raises `IndexError` after moving point i and shifting point `pre_i` along one axis (labelme/shape.py:275 or 278); with a single point, point 0 thus has its y shifted twice before the error.
- numpy arrays are modelled as sequences of points.
