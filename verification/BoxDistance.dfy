/** When the separation of two oriented boxes is their distance or their depth:
    backend/crates/thalos-collision/src/distance.rs:95-130. */
module BoxDistance {
  import opened Prelude
  import opened BoxSat

  /** The least distance between points of the boxes, reached by some. */
  ghost predicate IsDistance(a: Box, b: Box, d: real)
  {
    NoCloserThan(a, b, d) && exists p, q :: Contains(a, p) && Contains(b, q) && SquaredDistance(p, q) == Square(d)
  }

  ghost predicate Share(a: Box, b: Box)
  {
    exists p :: Contains(a, p) && Contains(b, p)
  }

  function Moved(b: Box, t: Vec): Box { b.(center := Plus(b.center, t)) }

  /** The way along the axis from the first box to the second. */
  function Side(a: Box, b: Box, axis: Vec): real { if Dot(Minus(b.center, a.center), axis) < 0.0 then -1.0 else 1.0 }

  /** From the second box back towards the first, by the gap along the axis. */
  function Back(a: Box, b: Box, axis: Vec): Vec { Scale(Side(a, b, axis) * Overlap(a, b, axis), axis) }

  /** The axis is a unit long, and the second box, moved back along it by the gap, touches the first. */
  ghost predicate Closes(a: Box, b: Box, axis: Vec)
  {
    Dot(axis, axis) == 1.0 && Share(a, Moved(b, Back(a, b, axis)))
  }

  // ----- Equality in Cauchy-Schwarz -----

  lemma Squeeze(s: real, k: real, g: real, m: real)
    requires s >= g > 0.0 && k >= 0.0 && m <= 1.0 && s + k == g * m
    ensures s == g && k == 0.0 && m == 1.0
  {
    ShortFactor(g, m);
    assert g * m == g && g * (1.0 - m) == 0.0;
    Cancels(1.0 - m, g);
  }

  lemma ZeroSquares(r: Vec)
    requires Dot(r, r) <= 0.0
    ensures r == Vec(0.0, 0.0, 0.0)
  {
    assert r.x * r.x >= 0.0 && r.y * r.y >= 0.0 && r.z * r.z >= 0.0;
    ZeroSquare(r.x);
    ZeroSquare(r.y);
    ZeroSquare(r.z);
  }

  lemma ZeroSquare(x: real)
    requires x * x <= 0.0
    ensures x == 0.0
  {
    if x > 0.0 { PositiveProduct(x, x); }
    assert Times(-x, -x) == x * x;
    if x < 0.0 { PositiveProduct(-x, -x); }
  }

  function Times(a: real, b: real): real { a * b }

  lemma PositiveProduct(a: real, b: real)
    requires a > 0.0 && b > 0.0
    ensures Times(a, b) > 0.0
  {
    PositiveFactors(a, b);
  }

  lemma PositiveFactors(a: real, b: real)
    requires a > 0.0 && b > 0.0
    ensures a * b > 0.0
  {
  }

  lemma Residual(u: Vec, n: Vec, t: real)
    ensures var r := Minus(u, Scale(t, n)); Dot(r, r) == Dot(u, u) - 2.0 * (t * Dot(u, n)) + Square(t) * Dot(n, n)
  {
    ResidualSquare(u.x, n.x, t);
    ResidualSquare(u.y, n.y, t);
    ResidualSquare(u.z, n.z, t);
    ResidualSum(u, n, t);
  }

  lemma ResidualSquare(u: real, n: real, t: real)
    ensures (u - t * n) * (u - t * n) == u * u - 2.0 * (t * (u * n)) + Square(t) * (n * n)
  {
  }

  lemma ResidualSum(u: Vec, n: Vec, t: real)
    ensures t * Dot(u, n) == t * (u.x * n.x) + t * (u.y * n.y) + t * (u.z * n.z)
    ensures Square(t) * Dot(n, n) == Square(t) * (n.x * n.x) + Square(t) * (n.y * n.y) + Square(t) * (n.z * n.z)
  {
  }

  lemma SquareRoot(t: real, g: real)
    requires Square(t) == Square(g) && g >= 0.0
    ensures AbsReal(t) == g
  {
    assert (AbsReal(t) - g) * (AbsReal(t) + g) == 0.0;
    if AbsReal(t) + g > 0.0 { Cancels(AbsReal(t) - g, AbsReal(t) + g); }
  }

  lemma Cancels(d: real, e: real)
    requires d * e == 0.0 && e != 0.0
    ensures d == 0.0
  {
  }

  lemma SquarePositive(g: real)
    requires g > 0.0
    ensures Square(g) > 0.0
  {
    PositiveProduct(g, g);
    assert Times(g, g) == Square(g);
  }

  /** A vector no longer than its shadow on a short axis lies along the axis, and the axis is a unit long. */
  lemma TightShadow(u: Vec, n: Vec, g: real)
    requires 0.0 < g <= AbsReal(Dot(u, n)) && Dot(n, n) <= 1.0 && Dot(u, u) == Square(g)
    ensures Dot(n, n) == 1.0 && AbsReal(Dot(u, n)) == g && u == Scale(Dot(u, n), n)
  {
    var t := Dot(u, n);
    Lagrange(u, n);
    DotSelf(Cross(u, n));
    SquareOrder(g, t);
    SquarePositive(g);
    Squeeze(Square(t), Dot(Cross(u, n), Cross(u, n)), Square(g), Dot(n, n));
    SquareRoot(t, g);
    Residual(u, n, t);
    ZeroSquares(Minus(u, Scale(t, n)));
  }

  // ----- When a gap is the distance -----

  lemma Sided(d: real, w: real, r: real, gap: real)
    requires gap > 0.0 && AbsReal(d) == r + gap && AbsReal(w - d) <= r
    ensures w >= gap <==> d >= 0.0
    ensures w <= -gap <==> d < 0.0
  {
  }

  /** Across a gap, every point of the second box lies on its side of every point of the first. */
  lemma ShadowIsSided(a: Box, b: Box, axis: Vec, p: Vec, q: Vec)
    requires Contains(a, p) && Contains(b, q) && Overlap(a, b, axis) < 0.0
    ensures Side(a, b, axis) > 0.0 ==> Dot(Minus(q, p), axis) >= -Overlap(a, b, axis)
    ensures Side(a, b, axis) < 0.0 ==> Dot(Minus(q, p), axis) <= Overlap(a, b, axis)
  {
    ShadowWithin(a, p, axis);
    ShadowWithin(b, q, axis);
    DotMinus(b.center, a.center, axis);
    DotMinus(q, p, axis);
    Sided(Dot(Minus(b.center, a.center), axis), Dot(Minus(q, p), axis),
          Radius(a, axis) + Radius(b, axis), -Overlap(a, b, axis));
  }

  lemma MovedHolds(b: Box, t: Vec, p: Vec)
    ensures Contains(b, p) ==> Contains(Moved(b, t), Plus(p, t))
  {
    if Contains(b, p) {
      var at :| InExtents(at, b.half) && p == PointAt(b, at);
      assert Plus(p, t) == PointAt(Moved(b, t), at);
    }
  }

  lemma ScaledDot(k: real, n: Vec)
    ensures Dot(Scale(k, n), Scale(k, n)) == Square(k) * Dot(n, n)
  {
  }

  lemma NearestPointsClose(a: Box, b: Box, axis: Vec, p: Vec, q: Vec)
    requires UnitAxes(a) && UnitAxes(b) && axis in SatAxes(a, b) && Overlap(a, b, axis) < 0.0
    requires Contains(a, p) && Contains(b, q) && SquaredDistance(p, q) == Square(-Overlap(a, b, axis))
    ensures Closes(a, b, axis)
  {
    var u, gap := Minus(q, p), -Overlap(a, b, axis);
    TestAxisIsShort(a, b, axis);
    GapIsBelowShadow(a, b, axis, p, q);
    TightShadow(u, axis, gap);
    ShadowIsSided(a, b, axis, p, q);
    var back := Back(a, b, axis);
    assert Side(a, b, axis) * Overlap(a, b, axis) == -Dot(u, axis);
    PushedBack(p, q, Dot(u, axis), axis);
    MovedHolds(b, back, q);
    assert Contains(Moved(b, back), p);
  }

  lemma PushedBack(p: Vec, q: Vec, k: real, axis: Vec)
    requires Minus(q, p) == Scale(k, axis)
    ensures Plus(q, Scale(-k, axis)) == p
  {
  }

  lemma Returns(b: Box, t: Vec)
    ensures Moved(Moved(b, t), Scale(-1.0, t)) == b
  {
  }

  lemma BackLength(a: Box, b: Box, axis: Vec)
    requires Dot(axis, axis) == 1.0
    ensures Dot(Back(a, b, axis), Back(a, b, axis)) == Square(-Overlap(a, b, axis))
  {
    ScaledDot(Side(a, b, axis) * Overlap(a, b, axis), axis);
  }

  lemma BackDistance(p: Vec, t: Vec)
    ensures SquaredDistance(p, Plus(p, Scale(-1.0, t))) == Dot(t, t)
  {
  }

  lemma ClosingPointsAreNearest(a: Box, b: Box, axis: Vec)
    requires Closes(a, b, axis)
    ensures exists p, q :: Contains(a, p) && Contains(b, q) && SquaredDistance(p, q) == Square(-Overlap(a, b, axis))
  {
    var back := Back(a, b, axis);
    var p :| Contains(a, p) && Contains(Moved(b, back), p);
    var q := Plus(p, Scale(-1.0, back));
    MovedHolds(Moved(b, back), Scale(-1.0, back), p);
    Returns(b, back);
    BackLength(a, b, axis);
    BackDistance(p, back);
    assert Contains(b, q);
  }

  /** A gap on a test axis is the distance of the boxes if and only if the axis is a unit long and the gap
      can be closed along it. */
  lemma GapIsDistanceIff(a: Box, b: Box, axis: Vec)
    requires UnitAxes(a) && UnitAxes(b) && axis in SatAxes(a, b) && Overlap(a, b, axis) < 0.0
    ensures IsDistance(a, b, -Overlap(a, b, axis)) <==> Closes(a, b, axis)
  {
    var gap := -Overlap(a, b, axis);
    ClearanceIsSafe(a, b, gap, axis);
    if IsDistance(a, b, gap) {
      var p, q :| Contains(a, p) && Contains(b, q) && SquaredDistance(p, q) == Square(gap);
      NearestPointsClose(a, b, axis, p, q);
    }
    if Closes(a, b, axis) { ClosingPointsAreNearest(a, b, axis); }
  }

  /** What is returned for boxes apart is their distance just when it closes along the first axis that shows a gap. */
  lemma SeparationIsDistanceIff(a: Box, b: Box, k: nat, separation: real)
    requires UnitAxes(a) && UnitAxes(b) && FirstGap(a, b, k) && Returned(a, b, separation)
    ensures separation == -Overlap(a, b, SatAxes(a, b)[k])
    ensures IsDistance(a, b, separation) <==> Closes(a, b, SatAxes(a, b)[k])
  {
    ReturnedIsFirst(a, b, k, separation);
    GapIsDistanceIff(a, b, SatAxes(a, b)[k]);
  }

  lemma ReturnedIsFirst(a: Box, b: Box, k: nat, separation: real)
    requires FirstGap(a, b, k) && Returned(a, b, separation)
    ensures SatAxes(a, b)[k] in SatAxes(a, b) && separation == -Overlap(a, b, SatAxes(a, b)[k])
  {
    assert SatAxes(a, b)[k] in SatAxes(a, b) && !Overlapping(a, b);
    var l :| FirstGap(a, b, l) && separation == -Overlap(a, b, SatAxes(a, b)[l]);
    assert l == k;
  }

  // ----- Frames -----

  /** Three unit vectors at right angles. */
  predicate Frame(x: Vec, y: Vec, z: Vec)
  {
    && Dot(x, x) == Dot(y, y) == Dot(z, z) == 1.0
    && Dot(x, y) == 0.0 && Dot(x, z) == 0.0 && Dot(y, z) == 0.0
  }

  predicate Orthonormal(b: Box) { Frame(b.axes.0, b.axes.1, b.axes.2) }

  lemma DotSwaps(a: Vec, b: Vec)
    ensures Dot(a, b) == Dot(b, a)
  {
  }

  lemma Expanded(k: real, a: real, b: real, c: real)
    ensures (a + b + c) * k == a * k + b * k + c * k
    ensures (a - b) * k == a * k - b * k
  {
  }

  /** One component of a product of three vectors. */
  lemma TripleComponent(x1: real, x2: real, x3: real, y1: real, y2: real, y3: real, z1: real, z2: real, z3: real)
    ensures (x3 * y1 - x1 * y3) * z3 - (x1 * y2 - x2 * y1) * z2
         == (x1 * z1 + x2 * z2 + x3 * z3) * y1 - (y1 * z1 + y2 * z2 + y3 * z3) * x1
  {
    Expanded(z3, x3 * y1, x1 * y3, 0.0);
    Expanded(z2, x1 * y2, x2 * y1, 0.0);
    Expanded(y1, x1 * z1, x2 * z2, x3 * z3);
    Expanded(x1, y1 * z1, y2 * z2, y3 * z3);
  }

  lemma TripleCross(x: Vec, y: Vec, z: Vec)
    ensures Cross(Cross(x, y), z).x == Dot(x, z) * y.x - Dot(y, z) * x.x
    ensures Cross(Cross(x, y), z).y == Dot(x, z) * y.y - Dot(y, z) * x.y
    ensures Cross(Cross(x, y), z).z == Dot(x, z) * y.z - Dot(y, z) * x.z
  {
    TripleComponent(x.x, x.y, x.z, y.x, y.y, y.z, z.x, z.y, z.z);
    TripleComponent(x.y, x.z, x.x, y.y, y.z, y.x, z.y, z.z, z.x);
    TripleComponent(x.z, x.x, x.y, y.z, y.x, y.y, z.z, z.x, z.y);
  }

  /** A vector at right angles to two others lies along their cross product. */
  lemma RightCross(x: Vec, y: Vec, r: Vec)
    requires Dot(x, r) == 0.0 && Dot(y, r) == 0.0
    ensures Cross(Cross(x, y), r) == Vec(0.0, 0.0, 0.0)
  {
    TripleCross(x, y, r);
  }

  lemma ZeroDot(r: Vec)
    requires r == Vec(0.0, 0.0, 0.0)
    ensures Dot(r, r) == 0.0
  {
  }

  lemma AlongCross(x: Vec, y: Vec, r: Vec)
    requires Dot(x, x) == Dot(y, y) == 1.0 && Dot(x, y) == 0.0 && Dot(x, r) == 0.0 && Dot(y, r) == 0.0
    ensures Dot(Cross(x, y), Cross(x, y)) == 1.0 && Square(Dot(r, Cross(x, y))) == Dot(r, r)
  {
    CrossLength(x, y);
    RightCross(x, y, r);
    NoCross(Cross(x, y), r);
    AlongUnit(Cross(x, y), r);
  }

  lemma CrossLength(x: Vec, y: Vec)
    requires Dot(x, x) == Dot(y, y) == 1.0 && Dot(x, y) == 0.0
    ensures Dot(Cross(x, y), Cross(x, y)) == 1.0
  {
    Lagrange(x, y);
  }

  lemma NoCross(m: Vec, r: Vec)
    requires Cross(m, r) == Vec(0.0, 0.0, 0.0)
    ensures Dot(Cross(r, m), Cross(r, m)) == 0.0
  {
    ZeroDot(Cross(m, r));
    CrossTurns(r, m);
  }

  lemma AlongUnit(m: Vec, r: Vec)
    requires Dot(m, m) == 1.0 && Dot(Cross(r, m), Cross(r, m)) == 0.0
    ensures Square(Dot(r, m)) == Dot(r, r)
  {
    Lagrange(r, m);
    UnitLagrange(Square(Dot(r, m)), Dot(Cross(r, m), Cross(r, m)), Dot(r, r), Dot(m, m));
  }

  lemma UnitLagrange(s: real, k: real, l: real, m: real)
    requires s + k == l * m && k == 0.0 && m == 1.0
    ensures s == l
  {
  }

  /** The third vector of a frame is the cross product of the others, one way or the other. */
  lemma FrameCross(x: Vec, y: Vec, z: Vec)
    requires Frame(x, y, z)
    ensures z == Cross(x, y) || z == Scale(-1.0, Cross(x, y))
  {
    var m := Cross(x, y);
    AlongCross(x, y, z);
    SquareRoot(Dot(z, m), 1.0);
    TightShadow(z, m, 1.0);
    UnitScale(m);
  }

  lemma UnitScale(n: Vec)
    ensures Scale(1.0, n) == n && Scale(-1.0, Scale(-1.0, n)) == n
  {
  }

  lemma NoShadowNoVector(x: Vec, y: Vec, z: Vec, r: Vec)
    requires Frame(x, y, z) && Dot(r, x) == 0.0 && Dot(r, y) == 0.0 && Dot(r, z) == 0.0
    ensures r == Vec(0.0, 0.0, 0.0)
  {
    DotSwaps(r, x);
    DotSwaps(r, y);
    AlongCross(x, y, r);
    FrameCross(x, y, z);
    TurnedDot(r, Cross(x, y));
    assert Dot(r, Cross(x, y)) == 0.0;
    ZeroSquares(r);
  }

  /** The combination of three vectors. */
  function Combined(t: Vec, x: Vec, y: Vec, z: Vec): Vec { Plus(Scale(t.x, x), Plus(Scale(t.y, y), Scale(t.z, z))) }

  lemma CombinedDot(t: Vec, x: Vec, y: Vec, z: Vec, n: Vec)
    ensures Dot(Combined(t, x, y, z), n) == t.x * Dot(x, n) + t.y * Dot(y, n) + t.z * Dot(z, n)
  {
    DotPlus(Scale(t.x, x), Plus(Scale(t.y, y), Scale(t.z, z)), n);
    DotPlus(Scale(t.y, y), Scale(t.z, z), n);
    DotScale(t.x, x, n);
    DotScale(t.y, y, n);
    DotScale(t.z, z, n);
  }

  lemma DotScale(k: real, a: Vec, n: Vec)
    ensures Dot(Scale(k, a), n) == k * Dot(a, n)
  {
  }

  /** In a frame the coefficients of a combination are its shadows. */
  lemma FrameCoefficients(t: Vec, x: Vec, y: Vec, z: Vec)
    requires Frame(x, y, z)
    ensures var v := Combined(t, x, y, z); Vec(Dot(v, x), Dot(v, y), Dot(v, z)) == t
  {
    CombinedDot(t, x, y, z, x);
    CombinedDot(t, x, y, z, y);
    CombinedDot(t, x, y, z, z);
    DotSwaps(x, y);
    DotSwaps(x, z);
    DotSwaps(y, z);
  }

  /** Every vector is the combination of a frame by its shadows. */
  lemma FrameSpans(v: Vec, x: Vec, y: Vec, z: Vec)
    requires Frame(x, y, z)
    ensures v == Combined(Vec(Dot(v, x), Dot(v, y), Dot(v, z)), x, y, z)
  {
    var t := Vec(Dot(v, x), Dot(v, y), Dot(v, z));
    var w := Combined(t, x, y, z);
    FrameCoefficients(t, x, y, z);
    DotMinus(v, w, x);
    DotMinus(v, w, y);
    DotMinus(v, w, z);
    NoShadowNoVector(x, y, z, Minus(v, w));
  }

  // ----- Boxes with the same axes -----

  /** Both boxes have the same three unit axes at right angles. */
  predicate Aligned(a: Box, b: Box) { a.axes == b.axes && Orthonormal(a) }

  predicate Sized(b: Box) { b.half.x >= 0.0 && b.half.y >= 0.0 && b.half.z >= 0.0 }

  function At(v: Vec, i: nat): real { if i == 0 then v.x else if i == 1 then v.y else v.z }

  /** The way between the centres, along the axes of the first box. */
  function Offsets(a: Box, b: Box): Vec
  {
    var v := Minus(b.center, a.center);
    Vec(Dot(v, a.axes.0), Dot(v, a.axes.1), Dot(v, a.axes.2))
  }

  lemma AxisFrame(b: Box, i: nat, j: nat)
    requires Orthonormal(b) && i < 3 && j < 3 && i != j
    ensures Frame(Axis(b.axes, i), Axis(b.axes, j), Axis(b.axes, 3 - i - j))
  {
    DotSwaps(b.axes.0, b.axes.1);
    DotSwaps(b.axes.0, b.axes.2);
    DotSwaps(b.axes.1, b.axes.2);
  }

  lemma AxisDot(b: Box, i: nat, j: nat)
    requires Orthonormal(b) && i < 3 && j < 3
    ensures Dot(Axis(b.axes, i), Axis(b.axes, j)) == if i == j then 1.0 else 0.0
  {
    if i != j { AxisFrame(b, i, j); }
  }

  lemma ReachOne(h: real, d: real)
    requires d == 1.0 || d == 0.0
    ensures Reach(h, d) == if d == 1.0 then h else 0.0
  {
  }

  lemma FrameRadius(b: Box, j: nat)
    requires Orthonormal(b) && j < 3
    ensures Radius(b, Axis(b.axes, j)) == At(b.half, j)
  {
    AxisDot(b, 0, j);
    AxisDot(b, 1, j);
    AxisDot(b, 2, j);
    ReachOne(b.half.x, Dot(b.axes.0, Axis(b.axes, j)));
    ReachOne(b.half.y, Dot(b.axes.1, Axis(b.axes, j)));
    ReachOne(b.half.z, Dot(b.axes.2, Axis(b.axes, j)));
  }

  lemma FaceOverlap(a: Box, b: Box, j: nat)
    requires Aligned(a, b) && j < 3
    ensures Overlap(a, b, Axis(a.axes, j)) == At(a.half, j) + At(b.half, j) - AbsReal(At(Offsets(a, b), j))
  {
    FrameRadius(a, j);
    FrameRadius(b, j);
  }

  /** No face axis shows a gap. */
  predicate FacesMeet(a: Box, b: Box) { forall j: nat | j < 3 :: Overlap(a, b, Axis(a.axes, j)) >= 0.0 }

  lemma FacesFirst(a: Box, b: Box, j: nat)
    requires j < 3
    ensures j < |SatAxes(a, b)| && SatAxes(a, b)[j] == Axis(a.axes, j) && Axis(a.axes, j) in SatAxes(a, b)
  {
  }

  /** The coordinate in reach of the first box that comes nearest to the second. */
  function Nearest(e: real, h: real): real { if e > h then h else if e < -h then -h else e }

  lemma NearestReaches(e: real, h: real, h': real)
    requires h >= 0.0 && h' >= 0.0 && h + h' - AbsReal(e) >= 0.0
    ensures AbsReal(Nearest(e, h)) <= h && AbsReal(Nearest(e, h) - e) <= h'
  {
  }

  lemma ScaledDifference(s: real, t: real, n: Vec)
    ensures Scale(s - t, n) == Minus(Scale(s, n), Scale(t, n))
  {
  }

  lemma SamePoint(a: Box, b: Box, t: Vec, e: Vec)
    requires a.axes == b.axes && Minus(b.center, a.center) == Combined(e, a.axes.0, a.axes.1, a.axes.2)
    ensures PointAt(a, t) == PointAt(b, Minus(t, e))
  {
    ScaledDifference(t.x, e.x, a.axes.0);
    ScaledDifference(t.y, e.y, a.axes.1);
    ScaledDifference(t.z, e.z, a.axes.2);
  }

  lemma MeetingFacesShare(a: Box, b: Box)
    requires Aligned(a, b) && Sized(a) && Sized(b) && FacesMeet(a, b)
    ensures Share(a, b)
  {
    var e := Offsets(a, b);
    var t := Vec(Nearest(e.x, a.half.x), Nearest(e.y, a.half.y), Nearest(e.z, a.half.z));
    forall j: nat | j < 3
      ensures At(a.half, j) + At(b.half, j) - AbsReal(At(e, j)) >= 0.0
    {
      FaceOverlap(a, b, j);
      assert Overlap(a, b, Axis(a.axes, j)) >= 0.0;
    }
    ExtentsReach(a, b, e, t);
    FrameSpans(Minus(b.center, a.center), a.axes.0, a.axes.1, a.axes.2);
    SamePoint(a, b, t, e);
    assert Contains(a, PointAt(a, t)) && Contains(b, PointAt(b, Minus(t, e)));
  }

  lemma ExtentsReach(a: Box, b: Box, e: Vec, t: Vec)
    requires Sized(a) && Sized(b) && t == Vec(Nearest(e.x, a.half.x), Nearest(e.y, a.half.y), Nearest(e.z, a.half.z))
    requires forall j: nat | j < 3 :: At(a.half, j) + At(b.half, j) - AbsReal(At(e, j)) >= 0.0
    ensures InExtents(t, a.half) && InExtents(Minus(t, e), b.half)
  {
    assert At(a.half, 0) + At(b.half, 0) - AbsReal(At(e, 0)) >= 0.0;
    assert At(a.half, 1) + At(b.half, 1) - AbsReal(At(e, 1)) >= 0.0;
    assert At(a.half, 2) + At(b.half, 2) - AbsReal(At(e, 2)) >= 0.0;
    NearestReaches(e.x, a.half.x, b.half.x);
    NearestReaches(e.y, a.half.y, b.half.y);
    NearestReaches(e.z, a.half.z, b.half.z);
  }

  /** Aligned boxes share a point just when no face axis shows a gap: for them the test is complete. */
  lemma SharesIff(a: Box, b: Box)
    requires Aligned(a, b)
    ensures Share(a, b) <==> Sized(a) && Sized(b) && FacesMeet(a, b)
  {
    if Share(a, b) {
      var p :| Contains(a, p) && Contains(b, p);
      SharedPointIsSeen(a, b, p);
      forall j: nat | j < 3 ensures Overlap(a, b, Axis(a.axes, j)) >= 0.0 { FacesFirst(a, b, j); }
    }
    if Sized(a) && Sized(b) && FacesMeet(a, b) { MeetingFacesShare(a, b); }
  }

  lemma MovedOffset(a: Box, b: Box, t: Vec, n: Vec)
    ensures Dot(Minus(Moved(b, t).center, a.center), n) == Dot(Minus(b.center, a.center), n) + Dot(t, n)
  {
    DotMinus(Plus(b.center, t), a.center, n);
    DotPlus(b.center, t, n);
    DotMinus(b.center, a.center, n);
  }

  lemma BackDot(a: Box, b: Box, k: nat, j: nat)
    requires Aligned(a, b) && k < 3 && j < 3
    ensures var n := Axis(a.axes, k);
            Dot(Back(a, b, n), Axis(a.axes, j)) == if j == k then Side(a, b, n) * Overlap(a, b, n) else 0.0
  {
    var n := Axis(a.axes, k);
    DotScale(Side(a, b, n) * Overlap(a, b, n), n, Axis(a.axes, j));
    AxisDot(a, k, j);
  }

  /** Moving the second box back by the gap along an axis closes that gap and leaves the others. */
  lemma OverlapAfterBack(a: Box, b: Box, k: nat, j: nat)
    requires Aligned(a, b) && Sized(a) && Sized(b) && k < 3 && j < 3 && Overlap(a, b, Axis(a.axes, k)) < 0.0
    ensures var moved := Moved(b, Back(a, b, Axis(a.axes, k)));
            Overlap(a, moved, Axis(a.axes, j)) == if j == k then 0.0 else Overlap(a, b, Axis(a.axes, j))
  {
    var n, back := Axis(a.axes, k), Back(a, b, Axis(a.axes, k));
    FrameRadius(a, j);
    FrameRadius(b, j);
    SameRadius(b, back, Axis(a.axes, j));
    BackDot(a, b, k, j);
    MovedOffset(a, b, back, Axis(a.axes, j));
  }

  lemma SameRadius(b: Box, t: Vec, n: Vec)
    ensures Radius(Moved(b, t), n) == Radius(b, n)
  {
  }

  /** The gap along one face axis is closed just when no other face axis shows one. */
  lemma ClosesIff(a: Box, b: Box, k: nat)
    requires Aligned(a, b) && k < 3 && Overlap(a, b, Axis(a.axes, k)) < 0.0
    ensures Closes(a, b, Axis(a.axes, k))
       <==> Sized(a) && Sized(b) && forall j: nat | j < 3 && j != k :: Overlap(a, b, Axis(a.axes, j)) >= 0.0
  {
    var moved := Moved(b, Back(a, b, Axis(a.axes, k)));
    AxisDot(a, k, k);
    SharesIff(a, moved);
    if Sized(a) && Sized(b) {
      forall j: nat | j < 3
        ensures Overlap(a, moved, Axis(a.axes, j)) == if j == k then 0.0 else Overlap(a, b, Axis(a.axes, j))
      {
        OverlapAfterBack(a, b, k, j);
      }
    }
  }

  lemma SelfCross(x: Vec)
    ensures Dot(Cross(x, x), Cross(x, x)) == 0.0
  {
  }

  lemma TurnedOverlap(a: Box, b: Box, z: Vec, m: Vec)
    requires z == m || z == Scale(-1.0, m)
    ensures Overlap(a, b, m) == Overlap(a, b, z)
  {
    OverlapTurns(b, a, m);
  }

  /** For aligned boxes every test axis shows what some face axis shows. */
  lemma AlignedAxis(a: Box, b: Box, axis: Vec) returns (j: nat)
    requires Aligned(a, b) && axis in SatAxes(a, b)
    ensures j < 3 && Overlap(a, b, axis) == Overlap(a, b, Axis(a.axes, j))
  {
    if axis in Faces(a, b) {
      j := FaceAxis(a, b, axis);
    } else {
      EdgesHold(a, b, 9, axis);
      var k: nat :| k < 9 && axis == Edge(a, b, k) && Dot(axis, axis) > CROSS_EPS;
      j := EdgeAxis(a, b, k / 3, k % 3, axis);
    }
  }

  lemma FaceAxis(a: Box, b: Box, axis: Vec) returns (j: nat)
    requires a.axes == b.axes && axis in Faces(a, b)
    ensures j < 3 && axis == Axis(a.axes, j)
  {
    j := if axis == a.axes.0 then 0 else if axis == a.axes.1 then 1 else 2;
  }

  lemma EdgeAxis(a: Box, b: Box, i: nat, k: nat, axis: Vec) returns (j: nat)
    requires Orthonormal(a) && i < 3 && k < 3 && axis == Cross(Axis(a.axes, i), Axis(a.axes, k)) && Dot(axis, axis) > 0.0
    ensures j < 3 && Overlap(a, b, axis) == Overlap(a, b, Axis(a.axes, j))
  {
    CrossedDiffer(Axis(a.axes, i), Axis(a.axes, k), axis);
    j := 3 - i - k;
    AxisFrame(a, i, k);
    CrossOverlap(a, b, Axis(a.axes, i), Axis(a.axes, k), Axis(a.axes, j), axis);
  }

  lemma CrossedDiffer(x: Vec, y: Vec, m: Vec)
    requires m == Cross(x, y) && Dot(m, m) > 0.0
    ensures x != y
  {
    SelfCross(x);
  }

  lemma CrossOverlap(a: Box, b: Box, x: Vec, y: Vec, z: Vec, m: Vec)
    requires Frame(x, y, z) && m == Cross(x, y)
    ensures Overlap(a, b, m) == Overlap(a, b, z)
  {
    FrameCross(x, y, z);
    TurnedOverlap(a, b, z, m);
  }

  lemma AlignedFirstGap(a: Box, b: Box, k: nat)
    requires Aligned(a, b) && FirstGap(a, b, k)
    ensures k < 3 && SatAxes(a, b)[k] == Axis(a.axes, k)
  {
    assert SatAxes(a, b)[k] in SatAxes(a, b);
    var j := AlignedAxis(a, b, SatAxes(a, b)[k]);
    FacesFirst(a, b, j);
    assert k <= j;
    FacesFirst(a, b, k);
  }

  lemma AlignedAreUnit(a: Box, b: Box)
    requires Aligned(a, b)
    ensures UnitAxes(a) && UnitAxes(b)
  {
  }

  /** What is returned for aligned boxes apart is their distance just when no face axis but the first to show
      a gap shows one. */
  lemma AlignedSeparationIff(a: Box, b: Box, k: nat, separation: real)
    requires Aligned(a, b) && FirstGap(a, b, k) && Returned(a, b, separation)
    ensures k < 3
    ensures IsDistance(a, b, separation)
       <==> Sized(a) && Sized(b) && forall j: nat | j < 3 && j != k :: Overlap(a, b, Axis(a.axes, j)) >= 0.0
  {
    AlignedAreUnit(a, b);
    AlignedFirstGap(a, b, k);
    SeparationIsDistanceIff(a, b, k, separation);
    ClosesIff(a, b, k);
  }

  /** With gaps along both the first and the second axis, the first is returned and is not the distance. */
  lemma TwoGaps(a: Box, b: Box, separation: real)
    requires Aligned(a, b) && Overlap(a, b, a.axes.0) < -EPS && Overlap(a, b, a.axes.1) < 0.0 && Returned(a, b, separation)
    ensures FirstGap(a, b, 0) && separation == -Overlap(a, b, a.axes.0) && !IsDistance(a, b, separation)
  {
    FacesFirst(a, b, 0);
    ReturnedIsFirst(a, b, 0, separation);
    AlignedSeparationIff(a, b, 0, separation);
    assert Axis(a.axes, 1) == a.axes.1;
  }

  /** Two shadows at right angles. */
  lemma TwoShadows(u: Vec, x: Vec, y: Vec)
    requires Dot(x, x) == Dot(y, y) == 1.0 && Dot(x, y) == 0.0
    ensures Square(Dot(u, x)) + Square(Dot(u, y)) <= Dot(u, u)
  {
    var t := Dot(u, x);
    var r := Minus(u, Scale(t, x));
    Residual(u, x, t);
    DotMinus(u, Scale(t, x), y);
    DotScale(t, x, y);
    ShadowIsShorter(r, y);
  }

  lemma AcrossTwoGaps(a: Box, b: Box, p: Vec, q: Vec)
    requires Aligned(a, b) && Overlap(a, b, a.axes.0) <= 0.0 && Overlap(a, b, a.axes.1) <= 0.0
    requires Contains(a, p) && Contains(b, q)
    ensures SquaredDistance(p, q) >= Square(Overlap(a, b, a.axes.0)) + Square(Overlap(a, b, a.axes.1))
  {
    ShadowSquare(a, b, a.axes.0, p, q);
    ShadowSquare(a, b, a.axes.1, p, q);
    TwoShadows(Minus(q, p), a.axes.0, a.axes.1);
  }

  lemma ShadowSquare(a: Box, b: Box, n: Vec, p: Vec, q: Vec)
    requires Contains(a, p) && Contains(b, q) && Overlap(a, b, n) <= 0.0
    ensures Square(Overlap(a, b, n)) <= Square(Dot(Minus(q, p), n))
  {
    GapIsBelowShadow(a, b, n, p, q);
    SquareOrder(-Overlap(a, b, n), Dot(Minus(q, p), n));
    assert Square(-Overlap(a, b, n)) == Square(Overlap(a, b, n));
  }

  /** Two cubes of one orientation, 3 apart along the first axis and 4 along the second: 1 is returned, but no
      two of their points are nearer than the square root of 5. */
  lemma GapIsNotDistance(a: Box, b: Box, separation: real, p: Vec, q: Vec)
    requires Aligned(a, b) && a.half == b.half == Vec(1.0, 1.0, 1.0) && Offsets(a, b) == Vec(3.0, 4.0, 0.0)
    requires Returned(a, b, separation) && Contains(a, p) && Contains(b, q)
    ensures FirstGap(a, b, 0) && separation == 1.0 && !IsDistance(a, b, separation)
    ensures SquaredDistance(p, q) >= 5.0
  {
    FaceOverlap(a, b, 0);
    FaceOverlap(a, b, 1);
    TwoGaps(a, b, separation);
    AcrossTwoGaps(a, b, p, q);
  }

  // ----- Depth -----

  /** Every shorter move of the second box leaves a shared point, and some move of any greater length parts the boxes. */
  ghost predicate IsDepth(a: Box, b: Box, depth: real) { ShorterShare(a, b, depth) && LongerPart(a, b, depth) }

  ghost predicate ShorterShare(a: Box, b: Box, depth: real)
  {
    forall t | Dot(t, t) < Square(depth) :: Share(a, Moved(b, t))
  }

  ghost predicate LongerPart(a: Box, b: Box, depth: real)
  {
    forall d | d > depth :: Parts(a, b, d)
  }

  /** Some move of that length leaves no shared point. */
  ghost predicate Parts(a: Box, b: Box, d: real)
  {
    exists t :: Dot(t, t) == Square(d) && !Share(a, Moved(b, t))
  }

  lemma {:induction false} EdgesStay(a: Box, b: Box, t: Vec, n: nat)
    ensures Edges(a, Moved(b, t), n) == Edges(a, b, n)
  {
    if n > 0 { EdgesStay(a, b, t, n - 1); }
  }

  lemma AxesStay(a: Box, b: Box, t: Vec)
    ensures SatAxes(a, Moved(b, t)) == SatAxes(a, b)
  {
    EdgesStay(a, b, t, 9);
  }

  lemma RootOrder(x: real, y: real)
    requires Square(x) <= Square(y) && y >= 0.0
    ensures AbsReal(x) <= y
  {
    assert Times(AbsReal(x) - y, AbsReal(x) + y) == Square(x) - Square(y);
    if AbsReal(x) > y { PositiveProduct(AbsReal(x) - y, AbsReal(x) + y); }
  }

  /** A move takes no more off an overlap than its length. */
  lemma MovedOverlap(a: Box, b: Box, t: Vec, n: Vec, m: real)
    requires Dot(n, n) <= 1.0 && m >= 0.0 && Dot(t, t) <= Square(m)
    ensures Overlap(a, Moved(b, t), n) >= Overlap(a, b, n) - m
  {
    ShadowIsShorter(t, n);
    RootOrder(Dot(t, n), m);
    MovedOffset(a, b, t, n);
    SameRadius(b, t, n);
  }

  /** No move shorter than the overlap returned makes the test find the boxes apart, whatever their axes. */
  lemma ShorterMovesOverlap(a: Box, b: Box, t: Vec, separation: real)
    requires UnitAxes(a) && UnitAxes(b) && Overlapping(a, b) && Returned(a, b, separation) && separation <= 0.0
    requires Dot(t, t) <= Square(separation)
    ensures Overlapping(a, Moved(b, t))
  {
    AxesStay(a, b, t);
    assert Square(-separation) == Square(separation);
    forall axis | axis in SatAxes(a, b)
      ensures Overlap(a, Moved(b, t), axis) >= 0.0
    {
      TestAxisIsShort(a, b, axis);
      MovedOverlap(a, b, t, axis, -separation);
    }
  }

  lemma AlignedShorterMoves(a: Box, b: Box, t: Vec, m: real)
    requires Aligned(a, b) && Sized(a) && Sized(b) && m >= 0.0 && Dot(t, t) <= Square(m)
    requires forall j: nat | j < 3 :: Overlap(a, b, Axis(a.axes, j)) >= m
    ensures Share(a, Moved(b, t))
  {
    SharesIff(a, Moved(b, t));
    forall j: nat | j < 3 ensures Overlap(a, Moved(b, t), Axis(a.axes, j)) >= 0.0 {
      AxisDot(a, j, j);
      MovedOverlap(a, b, t, Axis(a.axes, j), m);
    }
  }

  lemma PushOverlap(a: Box, b: Box, n: Vec, d: real)
    requires Dot(n, n) == 1.0 && d >= 0.0
    ensures var t := Scale(Side(a, b, n) * d, n);
            Dot(t, t) == Square(d) && Overlap(a, Moved(b, t), n) == Overlap(a, b, n) - d
  {
    var k := Side(a, b, n) * d;
    assert k == if Dot(Minus(b.center, a.center), n) < 0.0 then -d else d;
    UnitPush(k, n);
    PushedOverlap(a, b, Scale(k, n), n, d);
    assert Square(-d) == Square(d);
  }

  lemma UnitPush(k: real, n: Vec)
    requires Dot(n, n) == 1.0
    ensures Dot(Scale(k, n), Scale(k, n)) == Square(k) && Dot(Scale(k, n), n) == k
  {
    ScaledDot(k, n);
    DotScale(k, n, n);
  }

  lemma PushedOverlap(a: Box, b: Box, t: Vec, n: Vec, d: real)
    requires d >= 0.0 && Dot(t, n) == if Dot(Minus(b.center, a.center), n) < 0.0 then -d else d
    ensures Overlap(a, Moved(b, t), n) == Overlap(a, b, n) - d
  {
    MovedOffset(a, b, t, n);
    SameRadius(b, t, n);
  }

  lemma LongerMoveParts(a: Box, b: Box, j: nat, d: real)
    requires Aligned(a, b) && j < 3 && d >= 0.0 && Overlap(a, b, Axis(a.axes, j)) < d
    ensures Parts(a, b, d)
  {
    var n := Axis(a.axes, j);
    var t := Scale(Side(a, b, n) * d, n);
    AxisDot(a, j, j);
    PushOverlap(a, b, n, d);
    FacesFirst(a, Moved(b, t), j);
    if p :| Contains(a, p) && Contains(Moved(b, t), p) { SharedPointIsSeen(a, Moved(b, t), p); }
    assert !Share(a, Moved(b, t));
  }

  lemma AllShorterShare(a: Box, b: Box, m: real)
    requires Aligned(a, b) && Sized(a) && Sized(b) && m >= 0.0
    requires forall j: nat | j < 3 :: Overlap(a, b, Axis(a.axes, j)) >= m
    ensures ShorterShare(a, b, m)
  {
    forall t | Dot(t, t) < Square(m) ensures Share(a, Moved(b, t)) { AlignedShorterMoves(a, b, t, m); }
  }

  lemma AllLongerPart(a: Box, b: Box, j: nat, m: real)
    requires Aligned(a, b) && j < 3 && m >= 0.0 && Overlap(a, b, Axis(a.axes, j)) == m
    ensures LongerPart(a, b, m)
  {
    forall d | d > m ensures Parts(a, b, d) { LongerMoveParts(a, b, j, d); }
  }

  /** The least overlap of aligned boxes, which is returned with its sign changed, is their depth. */
  lemma AlignedDepth(a: Box, b: Box, depth: real)
    requires Aligned(a, b) && Sized(a) && Sized(b) && LeastOverlap(a, b, depth) && depth >= 0.0
    ensures Overlapping(a, b) && IsDepth(a, b, depth) && forall s | Returned(a, b, s) :: s == -depth
  {
    LeastIsReturned(a, b, depth);
    var j := LeastFace(a, b, depth);
    AllShorterShare(a, b, depth);
    AllLongerPart(a, b, j, depth);
  }

  lemma LeastIsReturned(a: Box, b: Box, depth: real)
    requires LeastOverlap(a, b, depth) && depth >= 0.0
    ensures Overlapping(a, b) && forall s | Returned(a, b, s) :: s == -depth
  {
    forall s | Returned(a, b, s) ensures s == -depth {
      var axis :| axis in SatAxes(a, b) && -s == Overlap(a, b, axis);
      var least :| least in SatAxes(a, b) && depth == Overlap(a, b, least);
    }
  }
  lemma LeastFace(a: Box, b: Box, m: real) returns (j: nat)
    requires Aligned(a, b) && LeastOverlap(a, b, m)
    ensures j < 3 && Overlap(a, b, Axis(a.axes, j)) == m
    ensures forall i: nat | i < 3 :: Overlap(a, b, Axis(a.axes, i)) >= m
  {
    var axis :| axis in SatAxes(a, b) && m == Overlap(a, b, axis);
    j := AlignedAxis(a, b, axis);
    forall i: nat | i < 3 ensures Overlap(a, b, Axis(a.axes, i)) >= m { FacesFirst(a, b, i); }
  }
}
