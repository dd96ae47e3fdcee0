/** The separating-axis test between oriented boxes and its distance form:
    backend/crates/thalos-collision/src/intersect.rs and distance.rs. */
module BoxSat {
  import opened Prelude

  /** The tolerance of both tests, and the squared length below which a cross product is dropped. */
  const EPS := 0.000000001
  const CROSS_EPS := 0.000000000001

  datatype Vec = Vec(x: real, y: real, z: real)

  function Dot(a: Vec, b: Vec): real { a.x * b.x + a.y * b.y + a.z * b.z }

  function Cross(a: Vec, b: Vec): Vec
  {
    Vec(a.y * b.z - a.z * b.y, a.z * b.x - a.x * b.z, a.x * b.y - a.y * b.x)
  }

  function Plus(a: Vec, b: Vec): Vec { Vec(a.x + b.x, a.y + b.y, a.z + b.z) }

  function Minus(a: Vec, b: Vec): Vec { Vec(a.x - b.x, a.y - b.y, a.z - b.z) }

  function Scale(k: real, a: Vec): Vec { Vec(k * a.x, k * a.y, k * a.z) }

  /** An oriented box: its centre, its three axes in the global frame, its half extents along them. */
  datatype Box = Box(center: Vec, axes: (Vec, Vec, Vec), half: Vec)

  function Axis(axes: (Vec, Vec, Vec), i: nat): Vec
  {
    if i == 0 then axes.0 else if i == 1 then axes.1 else axes.2
  }

  /** How far a box reaches along an axis, times the length of the axis. */
  function Radius(b: Box, axis: Vec): real
  {
    Reach(b.half.x, Dot(b.axes.0, axis)) + Reach(b.half.y, Dot(b.axes.1, axis)) + Reach(b.half.z, Dot(b.axes.2, axis))
  }

  function Reach(h: real, d: real): real { h * AbsReal(d) }

  // ----- The test axes -----

  function Faces(a: Box, b: Box): seq<Vec>
  {
    [a.axes.0, a.axes.1, a.axes.2, b.axes.0, b.axes.1, b.axes.2]
  }

  function Edge(a: Box, b: Box, k: nat): Vec { Cross(Axis(a.axes, k / 3), Axis(b.axes, k % 3)) }

  /** The cross products among the first `n` pairs of axes that do not nearly vanish. */
  function Edges(a: Box, b: Box, n: nat): seq<Vec>
  {
    if n == 0 then []
    else Edges(a, b, n - 1) + if Dot(Edge(a, b, n - 1), Edge(a, b, n - 1)) > CROSS_EPS then [Edge(a, b, n - 1)] else []
  }

  function SatAxes(a: Box, b: Box): seq<Vec> { Faces(a, b) + Edges(a, b, 9) }

  method CollectAxes(a: Box, b: Box) returns (axes: seq<Vec>)
    ensures axes == SatAxes(a, b)
  {
    axes := [a.axes.0, a.axes.1, a.axes.2];
    axes := axes + [b.axes.0, b.axes.1, b.axes.2];
    for i := 0 to 3
      invariant axes == Faces(a, b) + Edges(a, b, 3 * i)
    {
      for j := 0 to 3
        invariant axes == Faces(a, b) + Edges(a, b, 3 * i + j)
      {
        var cross := Cross(Axis(a.axes, i), Axis(b.axes, j));
        assert (3 * i + j) / 3 == i && (3 * i + j) % 3 == j;
        assert cross == Edge(a, b, 3 * i + j);
        if Dot(cross, cross) > CROSS_EPS { axes := axes + [cross]; }
      }
    }
  }

  // ----- The two tests -----

  /** By how much the boxes' shadows on an axis overlap; negative for a gap. */
  function Overlap(a: Box, b: Box, axis: Vec): real
  {
    Radius(a, axis) + Radius(b, axis) - AbsReal(Dot(Minus(b.center, a.center), axis))
  }

  /** What both tests decide: no axis shows a gap beyond the tolerance. */
  predicate Overlapping(a: Box, b: Box)
  {
    forall axis | axis in SatAxes(a, b) :: Overlap(a, b, axis) >= -EPS
  }

  method BoxVsBox(a: Box, b: Box) returns (intersects: bool)
    ensures intersects <==> Overlapping(a, b)
    ensures intersects <==> !ShowsGap(a, b)
  {
    ApartIff(a, b);
    var axes := CollectAxes(a, b);
    for i := 0 to |axes|
      invariant forall axis | axis in axes[..i] :: Overlap(a, b, axis) >= -EPS
    {
      var axis := axes[i];
      var centerProj := AbsReal(Dot(Minus(b.center, a.center), axis));
      if centerProj > Radius(a, axis) + Radius(b, axis) + EPS {
        assert Overlap(a, b, axis) < -EPS;
        return false;
      }
    }
    assert axes[..|axes|] == axes;
    return true;
  }

  /** The axis is the first one tested that shows a gap. */
  predicate FirstGap(a: Box, b: Box, k: int)
  {
    && 0 <= k < |SatAxes(a, b)| && Overlap(a, b, SatAxes(a, b)[k]) < -EPS
    && forall j | 0 <= j < k :: Overlap(a, b, SatAxes(a, b)[j]) >= -EPS
  }

  /** The least overlap over the axes tested. */
  ghost predicate LeastOverlap(a: Box, b: Box, overlap: real)
  {
    && (exists axis :: axis in SatAxes(a, b) && overlap == Overlap(a, b, axis))
    && forall axis | axis in SatAxes(a, b) :: overlap <= Overlap(a, b, axis)
  }

  /** The gap along the first separating axis, or else minus the least overlap. */
  ghost predicate Returned(a: Box, b: Box, separation: real)
  {
    if Overlapping(a, b) then LeastOverlap(a, b, -separation)
    else exists k :: FirstGap(a, b, k) && separation == -Overlap(a, b, SatAxes(a, b)[k])
  }

  /** It exceeds the tolerance just when the yes-or-no test finds the boxes apart. */
  method BoxBoxSeparation(a: Box, b: Box) returns (separation: real)
    ensures Returned(a, b, separation)
    ensures separation > EPS <==> !Overlapping(a, b)
    ensures UnitAxes(a) && UnitAxes(b) && separation >= 0.0 ==> NoCloserThan(a, b, separation)
  {
    var axes := CollectAxes(a, b);
    var least: Option<real> := None;
    for i := 0 to |axes|
      invariant least.None? <==> i == 0
      invariant forall axis | axis in axes[..i] :: Overlap(a, b, axis) >= -EPS && least.Some? && least.value <= Overlap(a, b, axis)
      invariant least.Some? ==> exists axis :: axis in axes[..i] && least.value == Overlap(a, b, axis)
    {
      var axis := axes[i];
      var centerProj := AbsReal(Dot(Minus(b.center, a.center), axis));
      var overlap := Radius(a, axis) + Radius(b, axis) - centerProj;
      assert axis in axes && axis in axes[..i + 1] && axes[..i + 1] == axes[..i] + [axis];
      if overlap < -EPS {
        assert forall j | 0 <= j < i :: axes[j] in axes[..i];
        assert FirstGap(a, b, i);
        ClearanceIsSafe(a, b, -overlap, axis);
        return -overlap;
      }
      if least.None? || overlap < least.value { least := Some(overlap); }
    }
    assert axes[..|axes|] == axes;
    assert axes[0] in axes;
    separation := -least.value;
    if separation >= 0.0 {
      var axis :| axis in axes && least.value == Overlap(a, b, axis);
      ClearanceIsSafe(a, b, separation, axis);
    }
  }

  // ----- Shadows of points -----

  lemma DotPlus(a: Vec, b: Vec, n: Vec)
    ensures Dot(Plus(a, b), n) == Dot(a, n) + Dot(b, n)
  {
  }

  lemma DotMinus(a: Vec, b: Vec, n: Vec)
    ensures Dot(Minus(a, b), n) == Dot(a, n) - Dot(b, n)
  {
  }

  /** The point at the given coordinates along the axes of a box. */
  function PointAt(b: Box, at: Vec): Vec
  {
    Plus(b.center, Plus(Scale(at.x, b.axes.0), Plus(Scale(at.y, b.axes.1), Scale(at.z, b.axes.2))))
  }

  predicate InExtents(at: Vec, half: Vec)
  {
    AbsReal(at.x) <= half.x && AbsReal(at.y) <= half.y && AbsReal(at.z) <= half.z
  }

  ghost predicate Contains(b: Box, p: Vec)
  {
    exists at: Vec :: InExtents(at, b.half) && p == PointAt(b, at)
  }

  lemma AxisWithin(t: real, h: real, a: Vec, n: Vec)
    requires AbsReal(t) <= h
    ensures AbsReal(Dot(Scale(t, a), n)) <= Reach(h, Dot(a, n))
  {
  }

  /** No point of a box casts its shadow further from the centre's than the radius. */
  lemma ShadowWithin(b: Box, p: Vec, n: Vec)
    requires Contains(b, p)
    ensures AbsReal(Dot(p, n) - Dot(b.center, n)) <= Radius(b, n)
  {
    var at :| InExtents(at, b.half) && p == PointAt(b, at);
    var u, v, w := Scale(at.x, b.axes.0), Scale(at.y, b.axes.1), Scale(at.z, b.axes.2);
    DotPlus(b.center, Plus(u, Plus(v, w)), n);
    DotPlus(u, Plus(v, w), n);
    DotPlus(v, w, n);
    AxisWithin(at.x, b.half.x, b.axes.0, n);
    AxisWithin(at.y, b.half.y, b.axes.1, n);
    AxisWithin(at.z, b.half.z, b.axes.2, n);
  }

  /** Boxes that share a point are never reported apart, whatever their axes: their shadows overlap
      on every axis, without any help from the tolerance. */
  lemma SharedPointIsSeen(a: Box, b: Box, p: Vec)
    requires Contains(a, p) && Contains(b, p)
    ensures Overlapping(a, b) && forall axis | axis in SatAxes(a, b) :: Overlap(a, b, axis) >= 0.0
  {
    forall axis | axis in SatAxes(a, b)
      ensures Overlap(a, b, axis) >= 0.0
    {
      ShadowWithin(a, p, axis);
      ShadowWithin(b, p, axis);
      DotMinus(b.center, a.center, axis);
    }
  }

  // ----- Clearance -----

  predicate UnitAxes(b: Box)
  {
    Dot(b.axes.0, b.axes.0) == Dot(b.axes.1, b.axes.1) == Dot(b.axes.2, b.axes.2) == 1.0
  }

  function Square(r: real): real { r * r }

  function SquaredDistance(p: Vec, q: Vec): real { Dot(Minus(q, p), Minus(q, p)) }

  /** No point of one box is nearer than `d` to a point of the other. */
  ghost predicate NoCloserThan(a: Box, b: Box, d: real)
  {
    forall p, q | Contains(a, p) && Contains(b, q) :: Square(d) <= SquaredDistance(p, q)
  }

  /** Lagrange's identity. */
  lemma Lagrange(u: Vec, n: Vec)
    ensures Square(Dot(u, n)) + Dot(Cross(u, n), Cross(u, n)) == Dot(u, u) * Dot(n, n)
  {
  }

  lemma DotSelf(u: Vec)
    ensures Dot(u, u) >= 0.0
  {
    assert u.x * u.x >= 0.0 && u.y * u.y >= 0.0 && u.z * u.z >= 0.0;
  }

  lemma ShortFactor(k: real, l: real)
    requires k >= 0.0 && l <= 1.0
    ensures k * l <= k
  {
    assert k * (1.0 - l) >= 0.0;
  }

  /** Along an axis no longer than a unit, a shadow is no longer than what casts it. */
  lemma ShadowIsShorter(u: Vec, n: Vec)
    requires Dot(n, n) <= 1.0
    ensures Square(Dot(u, n)) <= Dot(u, u)
  {
    Lagrange(u, n);
    DotSelf(u);
    DotSelf(Cross(u, n));
    ShortFactor(Dot(u, u), Dot(n, n));
  }

  /** For unit axes no test axis is longer than a unit. */
  lemma TestAxisIsShort(a: Box, b: Box, axis: Vec)
    requires UnitAxes(a) && UnitAxes(b) && axis in SatAxes(a, b)
    ensures Dot(axis, axis) <= 1.0
  {
    if axis !in Faces(a, b) {
      EdgesHold(a, b, 9, axis);
      var k: nat :| k < 9 && axis == Edge(a, b, k);
      UnitEdge(Axis(a.axes, k / 3), Axis(b.axes, k % 3));
    }
  }

  lemma UnitEdge(u: Vec, v: Vec)
    requires Dot(u, u) == Dot(v, v) == 1.0
    ensures Dot(Cross(u, v), Cross(u, v)) <= 1.0
  {
    Lagrange(u, v);
    assert Square(Dot(u, v)) >= 0.0;
  }

  lemma SquareOrder(gap: real, shadow: real)
    requires 0.0 <= gap <= AbsReal(shadow)
    ensures Square(gap) <= Square(shadow)
  {
    assert (AbsReal(shadow) - gap) * (AbsReal(shadow) + gap) >= 0.0;
  }

  lemma GapIsBelowShadow(a: Box, b: Box, axis: Vec, p: Vec, q: Vec)
    requires Contains(a, p) && Contains(b, q)
    ensures -Overlap(a, b, axis) <= AbsReal(Dot(Minus(q, p), axis))
  {
    ShadowWithin(a, p, axis);
    ShadowWithin(b, q, axis);
    DotMinus(b.center, a.center, axis);
    DotMinus(q, p, axis);
  }

  lemma ShadowIsBelowDistance(gap: real, axis: Vec, p: Vec, q: Vec)
    requires 0.0 <= gap <= AbsReal(Dot(Minus(q, p), axis)) && Dot(axis, axis) <= 1.0
    ensures Square(gap) <= SquaredDistance(p, q)
  {
    SquareOrder(gap, Dot(Minus(q, p), axis));
    ShadowIsShorter(Minus(q, p), axis);
  }

  /** A gap found on a test axis never exceeds the distance between any two points of the boxes. */
  lemma GapIsBelowDistance(a: Box, b: Box, axis: Vec, p: Vec, q: Vec)
    requires UnitAxes(a) && UnitAxes(b) && axis in SatAxes(a, b)
    requires Contains(a, p) && Contains(b, q) && Overlap(a, b, axis) <= 0.0
    ensures Square(-Overlap(a, b, axis)) <= SquaredDistance(p, q)
  {
    GapIsBelowShadow(a, b, axis, p, q);
    TestAxisIsShort(a, b, axis);
    ShadowIsBelowDistance(-Overlap(a, b, axis), axis, p, q);
  }

  lemma ClearanceIsSafe(a: Box, b: Box, separation: real, axis: Vec)
    requires separation >= 0.0 && axis in SatAxes(a, b) && separation == -Overlap(a, b, axis)
    ensures UnitAxes(a) && UnitAxes(b) ==> NoCloserThan(a, b, separation)
  {
    if UnitAxes(a) && UnitAxes(b) {
      forall p, q | Contains(a, p) && Contains(b, q)
        ensures Square(separation) <= SquaredDistance(p, q)
      {
        GapIsBelowDistance(a, b, axis, p, q);
      }
    }
  }

  // ----- The axes tested -----

  /** A face axis, or a cross product of two face axes longer than the threshold, shows a gap beyond the tolerance. */
  ghost predicate ShowsGap(a: Box, b: Box)
  {
    || (exists i: nat :: i < 3 && Overlap(a, b, Axis(a.axes, i)) < -0.000000001)
    || (exists i: nat :: i < 3 && Overlap(a, b, Axis(b.axes, i)) < -0.000000001)
    || (exists i: nat, j: nat :: i < 3 && j < 3 && EdgeGap(a, b, i, j))
  }

  predicate EdgeGap(a: Box, b: Box, i: nat, j: nat)
  {
    var n := Cross(Axis(a.axes, i), Axis(b.axes, j));
    Dot(n, n) > 0.000000000001 && Overlap(a, b, n) < -0.000000001
  }

  lemma FaceIsTested(a: Box, b: Box, i: nat)
    requires i < 3
    ensures Axis(a.axes, i) in SatAxes(a, b) && Axis(b.axes, i) in SatAxes(a, b)
  {
    assert SatAxes(a, b)[i] == Axis(a.axes, i) && SatAxes(a, b)[3 + i] == Axis(b.axes, i);
  }

  lemma EdgeIsTested(a: Box, b: Box, i: nat, j: nat)
    requires i < 3 && j < 3 && Dot(Cross(Axis(a.axes, i), Axis(b.axes, j)), Cross(Axis(a.axes, i), Axis(b.axes, j))) > CROSS_EPS
    ensures Cross(Axis(a.axes, i), Axis(b.axes, j)) in SatAxes(a, b)
  {
    var k := 3 * i + j;
    assert k / 3 == i && k % 3 == j;
    EdgesHold(a, b, 9, Edge(a, b, k));
  }

  /** The test finds the boxes apart just when one of the fifteen axes, if long enough, shows a gap beyond the tolerance. */
  lemma ApartIff(a: Box, b: Box)
    ensures !Overlapping(a, b) <==> ShowsGap(a, b)
  {
    if !Overlapping(a, b) {
      var axis :| axis in SatAxes(a, b) && Overlap(a, b, axis) < -EPS;
      GapIsShown(a, b, axis);
    }
    if i: nat :| i < 3 && Overlap(a, b, Axis(a.axes, i)) < -EPS { FaceIsTested(a, b, i); }
    if i: nat :| i < 3 && Overlap(a, b, Axis(b.axes, i)) < -EPS { FaceIsTested(a, b, i); }
    if i: nat, j: nat :| i < 3 && j < 3 && EdgeGap(a, b, i, j) { EdgeIsTested(a, b, i, j); }
  }

  lemma GapIsShown(a: Box, b: Box, axis: Vec)
    requires axis in SatAxes(a, b) && Overlap(a, b, axis) < -EPS
    ensures ShowsGap(a, b)
  {
    if axis in Faces(a, b) {
      FaceIndex(a, b, axis);
    } else {
      EdgesHold(a, b, 9, axis);
      var k: nat :| k < 9 && axis == Edge(a, b, k) && Dot(axis, axis) > CROSS_EPS;
      assert EdgeGap(a, b, k / 3, k % 3);
    }
  }

  lemma FaceIndex(a: Box, b: Box, axis: Vec)
    requires axis in Faces(a, b)
    ensures exists i: nat :: i < 3 && (axis == Axis(a.axes, i) || axis == Axis(b.axes, i))
  {
    var i := if axis == a.axes.0 || axis == b.axes.0 then 0 else if axis == a.axes.1 || axis == b.axes.1 then 1 else 2;
    assert axis == Axis(a.axes, i) || axis == Axis(b.axes, i);
  }

  function Signed(d: real, h: real): real { if d < 0.0 then -h else h }

  lemma SignedReach(d: real, h: real, a: Vec, n: Vec)
    requires d == Dot(a, n)
    ensures Dot(Scale(Signed(d, h), a), n) == Reach(h, d)
  {
  }

  /** The radius is how far a box reaches: some point of it casts its shadow that far from the centre's. */
  lemma RadiusIsReached(b: Box, n: Vec)
    requires b.half.x >= 0.0 && b.half.y >= 0.0 && b.half.z >= 0.0
    ensures exists p :: Contains(b, p) && Dot(p, n) - Dot(b.center, n) == Radius(b, n)
  {
    var dx, dy, dz := Dot(b.axes.0, n), Dot(b.axes.1, n), Dot(b.axes.2, n);
    var at := Vec(Signed(dx, b.half.x), Signed(dy, b.half.y), Signed(dz, b.half.z));
    var u, v, w := Scale(at.x, b.axes.0), Scale(at.y, b.axes.1), Scale(at.z, b.axes.2);
    SignedReach(dx, b.half.x, b.axes.0, n);
    SignedReach(dy, b.half.y, b.axes.1, n);
    SignedReach(dz, b.half.z, b.axes.2, n);
    DotPlus(b.center, Plus(u, Plus(v, w)), n);
    DotPlus(u, Plus(v, w), n);
    DotPlus(v, w, n);
    assert InExtents(at, b.half) && Contains(b, PointAt(b, at));
  }

  // ----- Symmetry -----

  lemma {:induction false} EdgesHold(a: Box, b: Box, n: nat, axis: Vec)
    ensures axis in Edges(a, b, n) <==> exists k: nat :: k < n && axis == Edge(a, b, k) && Dot(axis, axis) > CROSS_EPS
  {
    if n > 0 { EdgesHold(a, b, n - 1, axis); }
  }

  lemma CrossTurns(a: Vec, b: Vec)
    ensures Cross(a, b) == Scale(-1.0, Cross(b, a))
    ensures Dot(Cross(a, b), Cross(a, b)) == Dot(Cross(b, a), Cross(b, a))
  {
  }

  lemma RadiusTurns(b: Box, axis: Vec)
    ensures Radius(b, Scale(-1.0, axis)) == Radius(b, axis)
  {
    TurnedDot(b.axes.0, axis);
    TurnedDot(b.axes.1, axis);
    TurnedDot(b.axes.2, axis);
  }

  lemma CentersTurn(a: Vec, b: Vec, axis: Vec)
    ensures AbsReal(Dot(Minus(b, a), axis)) == AbsReal(Dot(Minus(a, b), axis)) == AbsReal(Dot(Minus(a, b), Scale(-1.0, axis)))
  {
    DotMinus(a, b, axis);
    DotMinus(b, a, axis);
    TurnedDot(Minus(a, b), axis);
  }

  lemma OverlapTurns(a: Box, b: Box, axis: Vec)
    ensures Overlap(a, b, axis) == Overlap(b, a, Scale(-1.0, axis)) == Overlap(b, a, axis)
  {
    CentersTurn(a.center, b.center, axis);
    RadiusTurns(a, axis);
    RadiusTurns(b, axis);
  }

  lemma TurnedDot(a: Vec, n: Vec)
    ensures Dot(a, Scale(-1.0, n)) == -Dot(a, n)
  {
  }

  /** The edge `k` of one order is the edge of the swapped indices of the other, turned round. */
  lemma EdgeTurns(a: Box, b: Box, k: nat) returns (k': nat)
    requires k < 9
    ensures k' < 9 && Edge(a, b, k) == Scale(-1.0, Edge(b, a, k')) && Edge(b, a, k') == Scale(-1.0, Edge(a, b, k))
    ensures Dot(Edge(a, b, k), Edge(a, b, k)) == Dot(Edge(b, a, k'), Edge(b, a, k'))
  {
    k' := 3 * (k % 3) + k / 3;
    assert k' / 3 == k % 3 && k' % 3 == k / 3;
    CrossTurns(Axis(a.axes, k / 3), Axis(b.axes, k % 3));
    CrossTurns(Axis(b.axes, k % 3), Axis(a.axes, k / 3));
  }

  lemma OverlappingTurns(a: Box, b: Box)
    requires Overlapping(a, b)
    ensures Overlapping(b, a)
  {
    forall axis | axis in SatAxes(b, a)
      ensures Overlap(b, a, axis) >= -EPS
    {
      OverlapTurns(b, a, axis);
      if axis in Faces(b, a) {
        assert axis in Faces(a, b);
        assert axis in SatAxes(a, b);
      } else {
        EdgesHold(b, a, 9, axis);
        var k: nat :| k < 9 && axis == Edge(b, a, k) && Dot(axis, axis) > CROSS_EPS;
        var k' := EdgeTurns(b, a, k);
        EdgesHold(a, b, 9, Edge(a, b, k'));
        assert Scale(-1.0, axis) == Edge(a, b, k');
        assert Scale(-1.0, axis) in SatAxes(a, b);
      }
    }
  }

  /** The verdict does not depend on which box comes first. */
  lemma OverlappingIsSymmetric(a: Box, b: Box)
    ensures Overlapping(a, b) <==> Overlapping(b, a)
  {
    if Overlapping(a, b) { OverlappingTurns(a, b); }
    if Overlapping(b, a) { OverlappingTurns(b, a); }
  }
}
