/** Fuzzy membership and centroid defuzzification: backend/crates/thalos-intelligence/src/fuzzy.rs. */
module Fuzzy {
  import opened Prelude

  const DEFUZZ_SAMPLES: nat := 100

  datatype Shape =
    | Triangular(a: real, b: real, c: real)
    | Trapezoidal(a: real, b: real, c: real, d: real)
    | LeftShoulder(plateau: real, zero: real)
    | RightShoulder(start: real, plateau: real)

  /** Degree of membership, for any corner points, in order or not. */
  function Evaluate(s: Shape, x: real): (degree: real)
    ensures 0.0 <= degree <= 1.0
  {
    match s
    case Triangular(a, b, c) =>
      if x <= a || x >= c then 0.0
      else if x <= b then Ratio(x - a, b - a)
      else Ratio(c - x, c - b)
    case Trapezoidal(a, b, c, d) =>
      if x <= a then 0.0
      else if x < b then Ratio(x - a, b - a)
      else if x <= c then 1.0
      else if x < d then Ratio(d - x, d - c)
      else 0.0
    case LeftShoulder(plateau, zero) =>
      if x <= plateau then 1.0
      else if x >= zero then 0.0
      else Ratio(zero - x, zero - plateau)
    case RightShoulder(start, plateau) =>
      if x <= start then 0.0
      else if x >= plateau then 1.0
      else Ratio(x - start, plateau - start)
  }

  function Ratio(part: real, whole: real): (r: real)
    requires 0.0 <= part <= whole && whole > 0.0
    ensures 0.0 <= r <= 1.0 && r * whole == part
  {
    RatioBounds(part, whole);
    part / whole
  }

  lemma RatioBounds(part: real, whole: real)
    requires 0.0 <= part <= whole && whole > 0.0
    ensures 0.0 <= part / whole <= 1.0 && part / whole * whole == part
  {
  }

  lemma OrderedFactors(r: real, r': real, w: real)
    requires r * w <= r' * w && w > 0.0
    ensures r <= r'
  {
    assert (r - r') * w == r * w - r' * w;
    assert r > r' ==> (r - r') * w > 0.0;
  }

  lemma RatioGrows(part: real, part': real, whole: real)
    requires 0.0 <= part <= part' <= whole && whole > 0.0
    ensures Ratio(part, whole) <= Ratio(part', whole)
  {
    OrderedFactors(Ratio(part, whole), Ratio(part', whole), whole);
  }

  lemma FullRatio(whole: real)
    requires whole > 0.0
    ensures Ratio(whole, whole) == 1.0
  {
    OrderedFactors(1.0, Ratio(whole, whole), whole);
  }

  /** A triangle with its corners in order rises to full membership at its peak and falls after it. */
  lemma TriangleHasOnePeak(a: real, b: real, c: real, x: real, y: real)
    requires a < b < c && x <= y
    ensures Evaluate(Triangular(a, b, c), b) == 1.0
    ensures y <= b ==> Evaluate(Triangular(a, b, c), x) <= Evaluate(Triangular(a, b, c), y)
    ensures b <= x ==> Evaluate(Triangular(a, b, c), x) >= Evaluate(Triangular(a, b, c), y)
  {
    FullRatio(b - a);
    FullRatio(c - b);
    if a < x && y <= b { RatioGrows(x - a, y - a, b - a); }
    if b < x && y < c { RatioGrows(c - y, c - x, c - b); }
  }

  /** The corners of a shape, from left to right. */
  function Corners(s: Shape): seq<(real, real)>
  {
    match s
    case Triangular(a, b, c) => [(a, 0.0), (b, 1.0), (c, 0.0)]
    case Trapezoidal(a, b, c, d) => [(a, 0.0), (b, 1.0), (c, 1.0), (d, 0.0)]
    case LeftShoulder(plateau, zero) => [(plateau, 1.0), (zero, 0.0)]
    case RightShoulder(start, plateau) => [(start, 0.0), (plateau, 1.0)]
  }

  /** The corners are in order; a trapezoid may have no top and may fall at once. */
  predicate InOrder(s: Shape)
  {
    match s
    case Triangular(a, b, c) => a < b < c
    case Trapezoidal(a, b, c, d) => a < b <= c <= d
    case LeftShoulder(plateau, zero) => plateau < zero
    case RightShoulder(start, plateau) => start < plateau
  }

  /** The point lies on the line through two others. */
  predicate OnLine(p: (real, real), q: (real, real), x: real, y: real)
  {
    (y - p.1) * (q.0 - p.0) == (x - p.0) * (q.1 - p.1)
  }

  /** With its corners in order, a shape is the broken line through them, level before the first and after the last. */
  lemma ShapeIsPolyline(s: Shape, x: real, i: nat)
    requires InOrder(s) && 0 < i < |Corners(s)|
    ensures x < Corners(s)[0].0 ==> Evaluate(s, x) == Corners(s)[0].1
    ensures x > Corners(s)[|Corners(s)| - 1].0 ==> Evaluate(s, x) == Corners(s)[|Corners(s)| - 1].1
    ensures Corners(s)[i - 1].0 <= x <= Corners(s)[i].0 && Corners(s)[i - 1].0 < Corners(s)[i].0
        ==> OnLine(Corners(s)[i - 1], Corners(s)[i], x, Evaluate(s, x))
  {
    var p, q, y := Corners(s)[i - 1], Corners(s)[i], Evaluate(s, x);
    if p.0 <= x <= q.0 && p.0 < q.0 {
      SegmentValue(s, x, i);
      if q.1 > p.1 { Rising(p, q, x, y); } else if q.1 < p.1 { Falling(p, q, x, y); }
    }
  }

  lemma SegmentValue(s: Shape, x: real, i: nat)
    requires InOrder(s) && 0 < i < |Corners(s)|
    requires Corners(s)[i - 1].0 <= x <= Corners(s)[i].0 && Corners(s)[i - 1].0 < Corners(s)[i].0
    ensures var (p, q) := (Corners(s)[i - 1], Corners(s)[i]);
            && (q.1 > p.1 ==> Evaluate(s, x) == Ratio(x - p.0, q.0 - p.0))
            && (q.1 < p.1 ==> Evaluate(s, x) == Ratio(q.0 - x, q.0 - p.0))
            && (q.1 == p.1 ==> Evaluate(s, x) == p.1)
  {
    match s
    case Triangular(a, b, c) =>
      RatioEnds(b - a);
      RatioEnds(c - b);
    case Trapezoidal(a, b, c, d) =>
      RatioEnds(b - a);
      if c < d { RatioEnds(d - c); }
    case LeftShoulder(plateau, zero) => RatioEnds(zero - plateau);
    case RightShoulder(start, plateau) => RatioEnds(plateau - start);
  }

  lemma RatioEnds(whole: real)
    requires whole > 0.0
    ensures Ratio(0.0, whole) == 0.0 && Ratio(whole, whole) == 1.0
  {
    NoRatio(whole);
    FullRatio(whole);
  }

  lemma NoRatio(whole: real)
    requires whole > 0.0
    ensures Ratio(0.0, whole) == 0.0
  {
  }

  lemma Rising(p: (real, real), q: (real, real), x: real, y: real)
    requires p.0 <= x <= q.0 && p.0 < q.0 && p.1 == 0.0 && q.1 == 1.0 && y == Ratio(x - p.0, q.0 - p.0)
    ensures OnLine(p, q, x, y)
  {
  }

  lemma Falling(p: (real, real), q: (real, real), x: real, y: real)
    requires p.0 <= x <= q.0 && p.0 < q.0 && p.1 == 1.0 && q.1 == 0.0 && y == Ratio(q.0 - x, q.0 - p.0)
    ensures OnLine(p, q, x, y)
  {
    assert (y - 1.0) * (q.0 - p.0) == y * (q.0 - p.0) - (q.0 - p.0);
  }

  // ----- Sums over sample points -----

  /** The midpoints of `n` equal cells of [0, 1]. */
  function Grid(n: nat): (xs: seq<real>)
    ensures |xs| == n
  {
    seq(n, i requires 0 <= i < n => (i as real + 0.5) / n as real)
  }

  /** The sum of `ys[i]` for lo <= i < hi. */
  function Mass(ys: seq<real>, lo: nat, hi: nat): real
    requires lo <= hi <= |ys|
  {
    if lo == hi then 0.0 else Mass(ys, lo, hi - 1) + ys[hi - 1]
  }

  /** The moment of the weights `ys` at the points `xs` about the point `c`, for lo <= i < hi. */
  function Moment(xs: seq<real>, ys: seq<real>, c: real, lo: nat, hi: nat): real
    requires lo <= hi <= |ys| == |xs|
  {
    if lo == hi then 0.0 else Moment(xs, ys, c, lo, hi - 1) + Term(xs, ys, c, hi - 1)
  }

  function Term(xs: seq<real>, ys: seq<real>, c: real, i: nat): real
    requires i < |ys| == |xs|
  {
    (xs[i] - c) * ys[i]
  }

  function Sampled(f: real -> real, xs: seq<real>): (ys: seq<real>)
    ensures |ys| == |xs|
  {
    seq(|xs|, i requires 0 <= i < |xs| => f(xs[i]))
  }

  /** The weighted average of the points; no weight at all counts as 0. */
  function CentroidOf(xs: seq<real>, ys: seq<real>): real
    requires |xs| == |ys|
  {
    var mass := Mass(ys, 0, |ys|);
    if mass <= 0.0 then 0.0 else Moment(xs, ys, 0.0, 0, |ys|) / mass
  }

  method Centroid(aggregated: real -> real, samples: nat) returns (c: real)
    ensures c == CentroidOf(Grid(samples), Sampled(aggregated, Grid(samples)))
  {
    var num, den := 0.0, 0.0;
    ghost var xs := Grid(samples);
    ghost var ys := Sampled(aggregated, xs);
    for i := 0 to samples
      invariant num == Moment(xs, ys, 0.0, 0, i) && den == Mass(ys, 0, i)
    {
      var x := (i as real + 0.5) / samples as real;
      var y := aggregated(x);
      assert x == xs[i] && y == ys[i] && (x - 0.0) * y == x * y;
      num := num + x * y;
      den := den + y;
    }
    c := if den <= 0.0 then 0.0 else num / den;
  }

  // ----- The centroid as a balance point -----

  lemma {:induction false} MomentShifts(xs: seq<real>, ys: seq<real>, c: real, lo: nat, hi: nat)
    requires lo <= hi <= |ys| == |xs|
    ensures Moment(xs, ys, c, lo, hi) == Moment(xs, ys, 0.0, lo, hi) - c * Mass(ys, lo, hi)
  {
    if lo < hi {
      MomentShifts(xs, ys, c, lo, hi - 1);
      Distribute(c, Mass(ys, lo, hi - 1), ys[hi - 1]);
      Distribute(ys[hi - 1], xs[hi - 1] - c, c);
    } else {
      assert c * Mass(ys, lo, hi) == 0.0;
    }
  }

  lemma Distribute(c: real, a: real, b: real)
    ensures c * (a + b) == c * a + c * b
    ensures (a + b) * c == a * c + b * c
  {
  }

  lemma {:induction false} MomentSplits(xs: seq<real>, ys: seq<real>, c: real, lo: nat, mid: nat, hi: nat)
    requires lo <= mid <= hi <= |ys| == |xs|
    ensures Moment(xs, ys, c, lo, hi) == Moment(xs, ys, c, lo, mid) + Moment(xs, ys, c, mid, hi)
  {
    if mid < hi { MomentSplits(xs, ys, c, lo, mid, hi - 1); }
  }

  /** On which side of `c` the centroid lies is the sign of the moment about `c`. */
  lemma CentroidByMoment(xs: seq<real>, ys: seq<real>, c: real)
    requires |xs| == |ys| && Mass(ys, 0, |ys|) > 0.0
    ensures Moment(xs, ys, c, 0, |ys|) >= 0.0 <==> CentroidOf(xs, ys) >= c
    ensures Moment(xs, ys, c, 0, |ys|) > 0.0 <==> CentroidOf(xs, ys) > c
  {
    MomentShifts(xs, ys, c, 0, |ys|);
    QuotientSign(Moment(xs, ys, 0.0, 0, |ys|), Mass(ys, 0, |ys|), c);
  }

  lemma QuotientSign(w: real, m: real, c: real)
    requires m > 0.0
    ensures w - c * m >= 0.0 <==> w / m >= c
    ensures w - c * m > 0.0 <==> w / m > c
  {
  }

  lemma PositiveFactor(d: real, m: real)
    requires m > 0.0
    ensures d * m >= 0.0 <==> d >= 0.0
    ensures d * m > 0.0 <==> d > 0.0
  {
  }

  predicate NonNegative(ys: seq<real>) { forall i | 0 <= i < |ys| :: ys[i] >= 0.0 }

  lemma {:induction false} MassNonNegative(ys: seq<real>, lo: nat, hi: nat)
    requires lo <= hi <= |ys| && NonNegative(ys)
    ensures Mass(ys, lo, hi) >= 0.0
    ensures forall i | lo <= i < hi :: Mass(ys, lo, hi) >= ys[i]
  {
    if lo < hi { MassNonNegative(ys, lo, hi - 1); }
  }

  /** All the weight at or right of `c` balances at or right of `c`. */
  lemma {:induction false} MomentRight(xs: seq<real>, ys: seq<real>, c: real, lo: nat, hi: nat)
    requires lo <= hi <= |ys| == |xs| && NonNegative(ys)
    requires forall i | lo <= i < hi :: ys[i] > 0.0 ==> xs[i] >= c
    ensures Moment(xs, ys, c, lo, hi) >= 0.0
  {
    if lo < hi {
      MomentRight(xs, ys, c, lo, hi - 1);
      TermSide(xs, ys, c, hi - 1);
    }
  }

  /** And likewise on the left. */
  lemma {:induction false} MomentLeft(xs: seq<real>, ys: seq<real>, c: real, lo: nat, hi: nat)
    requires lo <= hi <= |ys| == |xs| && NonNegative(ys)
    requires forall i | lo <= i < hi :: ys[i] > 0.0 ==> xs[i] <= c
    ensures Moment(xs, ys, c, lo, hi) <= 0.0
  {
    if lo < hi {
      MomentLeft(xs, ys, c, lo, hi - 1);
      TermSide(xs, ys, c, hi - 1);
    }
  }

  lemma TermSide(xs: seq<real>, ys: seq<real>, c: real, i: nat)
    requires i < |ys| == |xs| && ys[i] >= 0.0
    ensures (ys[i] > 0.0 ==> xs[i] >= c) ==> Term(xs, ys, c, i) >= 0.0
    ensures (ys[i] > 0.0 ==> xs[i] <= c) ==> Term(xs, ys, c, i) <= 0.0
  {
    TermSign(xs[i] - c, ys[i]);
  }

  lemma TermSign(d: real, y: real)
    requires y >= 0.0
    ensures d >= 0.0 ==> d * y >= 0.0
    ensures d <= 0.0 ==> d * y <= 0.0
    ensures y == 0.0 ==> d * y == 0.0
  {
  }

  /** A weighted average stays between the outermost points that carry weight. */
  lemma CentroidBetween(xs: seq<real>, ys: seq<real>, a: real, b: real)
    requires |xs| == |ys| && NonNegative(ys) && Mass(ys, 0, |ys|) > 0.0
    requires forall i | 0 <= i < |ys| :: ys[i] > 0.0 ==> a <= xs[i] <= b
    ensures a <= CentroidOf(xs, ys) <= b
  {
    MomentRight(xs, ys, a, 0, |ys|);
    CentroidByMoment(xs, ys, a);
    MomentLeft(xs, ys, b, 0, |ys|);
    CentroidByMoment(xs, ys, b);
  }

  // ----- Mirror pairs -----

  lemma {:induction false} MomentFront(xs: seq<real>, ys: seq<real>, c: real, lo: nat, hi: nat)
    requires lo < hi <= |ys| == |xs|
    ensures Moment(xs, ys, c, lo, hi) == Term(xs, ys, c, lo) + Moment(xs, ys, c, lo + 1, hi)
  {
    if lo + 1 < hi { MomentFront(xs, ys, c, lo, hi - 1); }
  }

  /** The points lo <= i < hi mirror each other about `c`, and each on the left weighs at least
      as much as its image on the right. */
  ghost predicate LeftHeavy(xs: seq<real>, ys: seq<real>, c: real, lo: nat, hi: nat)
    requires lo <= hi <= |ys| == |xs|
  {
    forall i, j | lo <= i <= j < hi && i + j == lo + hi - 1 ::
      xs[i] <= xs[j] && xs[i] + xs[j] == 2.0 * c && ys[i] >= ys[j]
  }

  ghost predicate Balanced(xs: seq<real>, ys: seq<real>, c: real, lo: nat, hi: nat)
    requires lo <= hi <= |ys| == |xs|
  {
    forall i, j | lo <= i <= j < hi && i + j == lo + hi - 1 :: xs[i] + xs[j] == 2.0 * c && ys[i] == ys[j]
  }

  /** Where each left sample outweighs its mirror image the balance tips left. */
  lemma {:induction false} MirrorTips(xs: seq<real>, ys: seq<real>, c: real, lo: nat, hi: nat)
    requires lo <= hi <= |ys| == |xs| && LeftHeavy(xs, ys, c, lo, hi)
    ensures Moment(xs, ys, c, lo, hi) <= 0.0
    decreases hi - lo
  {
    if hi - lo == 1 {
      assert Moment(xs, ys, c, lo, lo) == 0.0 && xs[lo] == c;
      PairTips(xs, ys, c, lo, lo);
    } else if hi - lo > 1 {
      MirrorTips(xs, ys, c, lo + 1, hi - 1);
      MomentFront(xs, ys, c, lo, hi);
      PairTips(xs, ys, c, lo, hi - 1);
    }
  }

  /** Samples that mirror each other about `c` cancel. */
  lemma {:induction false} MirrorCancels(xs: seq<real>, ys: seq<real>, c: real, lo: nat, hi: nat)
    requires lo <= hi <= |ys| == |xs| && Balanced(xs, ys, c, lo, hi)
    ensures Moment(xs, ys, c, lo, hi) == 0.0
    decreases hi - lo
  {
    if hi - lo == 1 {
      assert Moment(xs, ys, c, lo, lo) == 0.0 && xs[lo] == c;
      PairTips(xs, ys, c, lo, lo);
    } else if hi - lo > 1 {
      MirrorCancels(xs, ys, c, lo + 1, hi - 1);
      MomentFront(xs, ys, c, lo, hi);
      PairTips(xs, ys, c, lo, hi - 1);
    }
  }

  lemma PairTips(xs: seq<real>, ys: seq<real>, c: real, i: nat, j: nat)
    requires i <= j < |ys| == |xs| && xs[i] + xs[j] == 2.0 * c
    ensures xs[i] <= c && ys[i] >= ys[j] ==> Term(xs, ys, c, i) + Term(xs, ys, c, j) <= 0.0
    ensures ys[i] == ys[j] ==> Term(xs, ys, c, i) + Term(xs, ys, c, j) == 0.0
  {
    OppositeTips(xs[i] - c, xs[j] - c, ys[i], ys[j]);
  }

  lemma OppositeTips(d: real, e: real, left: real, right: real)
    requires d + e == 0.0
    ensures d <= 0.0 && left >= right ==> d * left + e * right <= 0.0
    ensures left == right ==> d * left + e * right == 0.0
  {
    assert e * right == -(d * right);
    assert d <= 0.0 && left >= right ==> d * (left - right) <= 0.0;
  }

  // ----- Comparing two weightings -----

  /** The second weighting favours later points: its ratio to the first never falls. */
  ghost predicate Favours(ys: seq<real>, zs: seq<real>)
    requires |ys| == |zs|
  {
    forall i, j | 0 <= j < i < |ys| :: zs[i] * ys[j] >= zs[j] * ys[i]
  }

  ghost predicate Ascending(xs: seq<real>) { forall i, j | 0 <= j < i < |xs| :: xs[j] <= xs[i] }

  /** A product that the sums below are compared by without being multiplied out. */
  function Times(a: real, b: real): real { a * b }

  /** How far weights of mass `d` and moment `n` lie before the point `x`, together. */
  function Shortfall(x: real, d: real, n: real): real { Times(x, d) - n }

  /** One more point `n`, compared with every earlier one. */
  lemma {:induction false} CrossTerms(xs: seq<real>, ys: seq<real>, zs: seq<real>, n: nat, k: nat)
    requires |xs| == |ys| == |zs| && k <= n < |xs| && Ascending(xs) && Favours(ys, zs)
    ensures Times(zs[n], Shortfall(xs[n], Mass(ys, 0, k), Moment(xs, ys, 0.0, 0, k)))
         >= Times(ys[n], Shortfall(xs[n], Mass(zs, 0, k), Moment(xs, zs, 0.0, 0, k)))
  {
    if k > 0 {
      var j := k - 1;
      CrossTerms(xs, ys, zs, n, j);
      PointAdded(xs, ys, xs[n], j);
      PointAdded(xs, zs, xs[n], j);
      CrossAt(xs, ys, zs, n, j,
              Shortfall(xs[n], Mass(ys, 0, j), Moment(xs, ys, 0.0, 0, j)),
              Shortfall(xs[n], Mass(zs, 0, j), Moment(xs, zs, 0.0, 0, j)));
    }
  }

  lemma CrossAt(xs: seq<real>, ys: seq<real>, zs: seq<real>, n: nat, j: nat, s: real, s': real)
    requires |xs| == |ys| == |zs| && j < n < |xs| && Ascending(xs) && Favours(ys, zs)
    requires Times(zs[n], s) >= Times(ys[n], s')
    ensures Times(zs[n], s + Times(xs[n] - xs[j], ys[j])) >= Times(ys[n], s' + Times(xs[n] - xs[j], zs[j]))
  {
    CrossTerm(xs[n] - xs[j], ys[n], ys[j], zs[n], zs[j], s, s');
  }

  lemma PointAdded(xs: seq<real>, ys: seq<real>, x: real, j: nat)
    requires j < |xs| == |ys|
    ensures Shortfall(x, Mass(ys, 0, j + 1), Moment(xs, ys, 0.0, 0, j + 1))
         == Shortfall(x, Mass(ys, 0, j), Moment(xs, ys, 0.0, 0, j)) + Times(x - xs[j], ys[j])
  {
    ShortfallGrows(x, xs[j], ys[j], Mass(ys, 0, j), Moment(xs, ys, 0.0, 0, j));
  }

  lemma ShortfallGrows(x: real, xj: real, yj: real, d: real, n: real)
    ensures Shortfall(x, d + yj, n + (xj - 0.0) * yj) == Shortfall(x, d, n) + Times(x - xj, yj)
  {
  }

  lemma CrossTerm(gap: real, y: real, yj: real, z: real, zj: real, s: real, s': real)
    requires gap >= 0.0 && z * yj >= zj * y
    requires Times(z, s) >= Times(y, s')
    ensures Times(z, s + Times(gap, yj)) >= Times(y, s' + Times(gap, zj))
  {
  }

  /** The sum form of Chebyshev's inequality for two weightings in this order. */
  lemma {:induction false} MomentsOrdered(xs: seq<real>, ys: seq<real>, zs: seq<real>, k: nat)
    requires |xs| == |ys| == |zs| && k <= |xs| && Ascending(xs) && Favours(ys, zs)
    ensures Times(Moment(xs, zs, 0.0, 0, k), Mass(ys, 0, k)) >= Times(Moment(xs, ys, 0.0, 0, k), Mass(zs, 0, k))
  {
    if k > 0 {
      var n := k - 1;
      MomentsOrdered(xs, ys, zs, n);
      CrossTerms(xs, ys, zs, n, n);
      AddPoint(xs[n], ys[n], zs[n], Mass(ys, 0, n), Moment(xs, ys, 0.0, 0, n), Mass(zs, 0, n), Moment(xs, zs, 0.0, 0, n));
    }
  }

  lemma AddPoint(x: real, y: real, z: real, d: real, n: real, d': real, n': real)
    requires Times(n', d) >= Times(n, d')
    requires Times(z, Shortfall(x, d, n)) >= Times(y, Shortfall(x, d', n'))
    ensures Times(n' + (x - 0.0) * z, d + y) >= Times(n + (x - 0.0) * y, d' + z)
  {
  }

  /** A weighting that favours later points has the later centroid. */
  lemma CentroidsOrdered(xs: seq<real>, ys: seq<real>, zs: seq<real>)
    requires |xs| == |ys| == |zs| && Ascending(xs) && Favours(ys, zs)
    requires Mass(ys, 0, |ys|) > 0.0 && Mass(zs, 0, |zs|) > 0.0
    ensures CentroidOf(xs, ys) <= CentroidOf(xs, zs)
  {
    MomentsOrdered(xs, ys, zs, |xs|);
    QuotientsOrdered(Moment(xs, ys, 0.0, 0, |xs|), Mass(ys, 0, |xs|), Moment(xs, zs, 0.0, 0, |xs|), Mass(zs, 0, |xs|));
  }

  lemma QuotientsOrdered(n: real, d: real, n': real, d': real)
    requires d > 0.0 && d' > 0.0 && Times(n', d) >= Times(n, d')
    ensures n / d <= n' / d'
  {
  }
}
