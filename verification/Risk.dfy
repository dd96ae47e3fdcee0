/** Mamdani aggregation and defuzzification of the risk output: the risk variable of
    backend/crates/thalos-intelligence/src/kb.rs, `defuzzify_risk` of lib.rs and `Risk` of output.rs. */
module Risk {
  import opened Prelude
  import opened Fuzzy

  datatype RiskSet = Low | Medium | High | Critical

  function RiskShape(s: RiskSet): Shape
  {
    match s
    case Low => LeftShoulder(0.15, 0.4)
    case Medium => Triangular(0.25, 0.375, 0.5)
    case High => Triangular(0.5, 0.625, 0.75)
    case Critical => RightShoulder(0.75, 1.0)
  }

  /** A fired rule's vote: its activation, clipping one set of the risk variable. */
  datatype Contribution = Contribution(activation: real, riskSet: RiskSet)

  function Clipped(s: RiskSet, level: real, x: real): real { MinReal(Evaluate(RiskShape(s), x), level) }

  /** Max-aggregation at a point, starting from 0. */
  function Aggregated(cs: seq<Contribution>, x: real): real
  {
    if cs == [] then 0.0
    else
      var last := cs[|cs| - 1];
      MaxReal(Aggregated(cs[..|cs| - 1], x), Clipped(last.riskSet, last.activation, x))
  }

  /** The degree to which a vote backs a risk of `x`: the degree of its set there, but no more than its activation. */
  predicate Backs(c: Contribution, x: real, degree: real)
  {
    && degree <= Evaluate(RiskShape(c.riskSet), x) && degree <= c.activation
    && (degree == Evaluate(RiskShape(c.riskSet), x) || degree == c.activation)
  }

  /** The aggregate at a risk is the greatest degree to which any vote backs it, and 0 if none does. */
  lemma {:induction false} AggregateIsGreatest(cs: seq<Contribution>, x: real)
    ensures Aggregated(cs, x) >= 0.0
    ensures forall c, degree | c in cs && Backs(c, x, degree) :: degree <= Aggregated(cs, x)
    ensures Aggregated(cs, x) == 0.0 || exists c :: c in cs && Backs(c, x, Aggregated(cs, x))
  {
    if cs != [] {
      var front, last := cs[..|cs| - 1], cs[|cs| - 1];
      AggregateIsGreatest(front, x);
      assert cs == front + [last];
      assert Backs(last, x, Clipped(last.riskSet, last.activation, x));
    }
  }

  function CrispRisk(cs: seq<Contribution>): real
  {
    if cs == [] then 0.0
    else CentroidOf(Grid(DEFUZZ_SAMPLES), Sampled(x => Aggregated(cs, x), Grid(DEFUZZ_SAMPLES)))
  }

  method DefuzzifyRisk(cs: seq<Contribution>) returns (crisp: real)
    ensures crisp == CrispRisk(cs)
  {
    if cs == [] { return 0.0; }
    crisp := Centroid(x => Aggregated(cs, x), DEFUZZ_SAMPLES);
  }

  datatype Verdict = LowRisk | MediumRisk | HighRisk | CriticalRisk

  function FromCrisp(value: real): Verdict
  {
    var clamped := if value < 0.0 then 0.0 else if value > 1.0 then 1.0 else value;
    if clamped < 0.25 then LowRisk
    else if clamped < 0.5 then MediumRisk
    else if clamped < 0.75 then HighRisk
    else CriticalRisk
  }

  // ----- One level for each risk set -----

  /** The strongest vote for each set, 0 where there is none. */
  datatype Levels = Levels(low: real, medium: real, high: real, critical: real)

  function Of(l: Levels, s: RiskSet): real
  {
    match s case Low => l.low case Medium => l.medium case High => l.high case Critical => l.critical
  }

  function Strongest(cs: seq<Contribution>, s: RiskSet): (level: real)
    ensures level >= 0.0
  {
    if cs == [] then 0.0
    else
      var last, before := cs[|cs| - 1], Strongest(cs[..|cs| - 1], s);
      if last.riskSet == s then MaxReal(before, last.activation) else before
  }

  /** It bounds every vote for the set, and is 0 or one of them. */
  lemma {:induction false} StrongestIsMax(cs: seq<Contribution>, s: RiskSet)
    ensures forall c | c in cs && c.riskSet == s :: c.activation <= Strongest(cs, s)
    ensures Strongest(cs, s) == 0.0 || exists c :: c in cs && c.riskSet == s && c.activation == Strongest(cs, s)
  {
    if cs != [] {
      StrongestIsMax(cs[..|cs| - 1], s);
      assert cs == cs[..|cs| - 1] + [cs[|cs| - 1]];
    }
  }

  function LevelsOf(cs: seq<Contribution>): Levels
  {
    Levels(Strongest(cs, Low), Strongest(cs, Medium), Strongest(cs, High), Strongest(cs, Critical))
  }

  predicate Proper(l: Levels) { l.low >= 0.0 && l.medium >= 0.0 && l.high >= 0.0 && l.critical >= 0.0 }

  /** The union of the four sets, each clipped at its level. */
  function Output(l: Levels, x: real): real
  {
    MaxReal(MaxReal(Clipped(Low, l.low, x), Clipped(Medium, l.medium, x)),
            MaxReal(Clipped(High, l.high, x), Clipped(Critical, l.critical, x)))
  }

  /** However many rules vote, the aggregate is that union. */
  lemma {:induction false} AggregateIsUnion(cs: seq<Contribution>, x: real)
    ensures Aggregated(cs, x) == Output(LevelsOf(cs), x)
  {
    if cs != [] {
      var before, last := cs[..|cs| - 1], cs[|cs| - 1];
      AggregateIsUnion(before, x);
      OutputRises(LevelsOf(before), last.riskSet, last.activation, x);
      LevelsRise(cs);
    }
  }

  /** One more vote for a set. */
  function Raised(l: Levels, s: RiskSet, level: real): Levels
  {
    match s
    case Low => l.(low := MaxReal(l.low, level))
    case Medium => l.(medium := MaxReal(l.medium, level))
    case High => l.(high := MaxReal(l.high, level))
    case Critical => l.(critical := MaxReal(l.critical, level))
  }

  lemma LevelsRise(cs: seq<Contribution>)
    requires cs != []
    ensures var last := cs[|cs| - 1];
            LevelsOf(cs) == Raised(LevelsOf(cs[..|cs| - 1]), last.riskSet, last.activation)
  {
  }

  lemma OutputRises(l: Levels, s: RiskSet, level: real, x: real)
    ensures Output(Raised(l, s, level), x) == MaxReal(Output(l, x), Clipped(s, level, x))
  {
    ClipsMerge(Evaluate(RiskShape(s), x), Of(l, s), level);
    MaxMerges(Clipped(Low, l.low, x), Clipped(Medium, l.medium, x), Clipped(High, l.high, x), Clipped(Critical, l.critical, x),
              Clipped(s, level, x));
  }

  lemma MaxMerges(a: real, b: real, c: real, d: real, y: real)
    ensures MaxReal(MaxReal(MaxReal(a, b), MaxReal(c, d)), y) == MaxReal(MaxReal(MaxReal(a, y), b), MaxReal(c, d))
         == MaxReal(MaxReal(a, MaxReal(b, y)), MaxReal(c, d)) == MaxReal(MaxReal(a, b), MaxReal(MaxReal(c, y), d))
         == MaxReal(MaxReal(a, b), MaxReal(c, MaxReal(d, y)))
  {
  }

  lemma ClipsMerge(degree: real, a: real, b: real)
    ensures MaxReal(MinReal(degree, a), MinReal(degree, b)) == MinReal(degree, MaxReal(a, b))
  {
  }

  /** The aggregate sampled on the defuzzification grid. */
  function Profile(l: Levels): (ys: seq<real>)
    ensures |ys| == DEFUZZ_SAMPLES
  {
    Sampled(x => Output(l, x), Grid(DEFUZZ_SAMPLES))
  }

  function Crisp(l: Levels): real { CentroidOf(Grid(DEFUZZ_SAMPLES), Profile(l)) }

  lemma ProfileIsNonNegative(l: Levels)
    requires Proper(l)
    ensures NonNegative(Profile(l))
  {
  }

  lemma GridPoints()
    ensures forall i | 0 <= i < DEFUZZ_SAMPLES :: Grid(DEFUZZ_SAMPLES)[i] == (i as real + 0.5) / 100.0
    ensures Ascending(Grid(DEFUZZ_SAMPLES))
  {
  }

  /** The crisp risk depends on the four levels only. */
  lemma CrispRiskIsOfLevels(cs: seq<Contribution>)
    ensures CrispRisk(cs) == Crisp(LevelsOf(cs))
  {
    var l := LevelsOf(cs);
    if cs == [] {
      forall i | 0 <= i < DEFUZZ_SAMPLES
        ensures Profile(l)[i] == 0.0
      {
      }
      MassZero(Profile(l), 0, DEFUZZ_SAMPLES);
    } else {
      forall i | 0 <= i < DEFUZZ_SAMPLES
        ensures Aggregated(cs, Grid(DEFUZZ_SAMPLES)[i]) == Profile(l)[i]
      {
        AggregateIsUnion(cs, Grid(DEFUZZ_SAMPLES)[i]);
      }
      assert Sampled(x => Aggregated(cs, x), Grid(DEFUZZ_SAMPLES)) == Profile(l);
    }
  }

  lemma {:induction false} MassZero(ys: seq<real>, lo: nat, hi: nat)
    requires lo <= hi <= |ys| && forall i | lo <= i < hi :: ys[i] == 0.0
    ensures Mass(ys, lo, hi) == 0.0
  {
    if lo < hi { MassZero(ys, lo, hi - 1); }
  }

  lemma {:induction false} MomentZero(xs: seq<real>, ys: seq<real>, c: real, lo: nat, hi: nat)
    requires lo <= hi <= |ys| == |xs| && forall i | lo <= i < hi :: ys[i] == 0.0
    ensures Moment(xs, ys, c, lo, hi) == 0.0
  {
    if lo < hi { MomentZero(xs, ys, c, lo, hi - 1); }
  }

  // ----- The four quarters of the profile -----

  /** On the sample grid the first quarter sees only `low`, the second `low` and `medium`, the
      third only `high` and the last only `critical`. */
  lemma Quarters(l: Levels, i: nat)
    requires Proper(l) && i < DEFUZZ_SAMPLES
    ensures var (x, y) := (Grid(DEFUZZ_SAMPLES)[i], Profile(l)[i]);
            && x == (i as real + 0.5) / 100.0
            && (i < 25 ==> y == Clipped(Low, l.low, x))
            && (25 <= i < 50 ==> y == MaxReal(Clipped(Low, l.low, x), Clipped(Medium, l.medium, x)))
            && (50 <= i < 75 ==> y == Clipped(High, l.high, x))
            && (75 <= i ==> y == Clipped(Critical, l.critical, x))
            && (40 <= i ==> Clipped(Low, l.low, x) == 0.0)
  {
  }

  /** The critical set rises evenly over the last quarter. */
  lemma CriticalRamp(i: nat)
    requires 75 <= i < DEFUZZ_SAMPLES
    ensures Evaluate(RiskShape(Critical), Grid(DEFUZZ_SAMPLES)[i]) == (i as real - 74.5) / 25.0
  {
  }

  // ----- General bounds -----

  /** The crisp risk is always in [0, 1]. */
  lemma CrispInUnit(cs: seq<Contribution>)
    ensures 0.0 <= CrispRisk(cs) <= 1.0
  {
    CrispRiskIsOfLevels(cs);
    var ys := Profile(LevelsOf(cs));
    ProfileIsNonNegative(LevelsOf(cs));
    GridPoints();
    if Mass(ys, 0, |ys|) > 0.0 { CentroidBetween(Grid(DEFUZZ_SAMPLES), ys, 0.0, 1.0); }
  }

  /** With nothing at the critical level, the profile is empty beyond 0.745. */
  lemma SilentQuarter(l: Levels, i: nat)
    requires Proper(l) && l.critical == 0.0 && i < DEFUZZ_SAMPLES && Profile(l)[i] > 0.0
    ensures 0.0 <= Grid(DEFUZZ_SAMPLES)[i] <= 0.745
  {
    Quarters(l, i);
  }

  lemma NoCriticalLevel(l: Levels)
    requires Proper(l) && l.critical == 0.0
    ensures Crisp(l) <= 0.745
  {
    var xs, ys := Grid(DEFUZZ_SAMPLES), Profile(l);
    ProfileIsNonNegative(l);
    forall i | 0 <= i < |ys| && ys[i] > 0.0
      ensures 0.0 <= xs[i] <= 0.745
    {
      SilentQuarter(l, i);
    }
    if Mass(ys, 0, |ys|) > 0.0 { CentroidBetween(xs, ys, 0.0, 0.745); }
  }

  /** Without a vote for `critical` the verdict is never critical. */
  lemma NoCriticalVote(cs: seq<Contribution>)
    requires forall c | c in cs :: c.riskSet != Critical
    ensures CrispRisk(cs) < 0.75 && FromCrisp(CrispRisk(cs)) != CriticalRisk
  {
    CrispRiskIsOfLevels(cs);
    StrongestIsMax(cs, Critical);
    NoCriticalLevel(LevelsOf(cs));
  }

  // ----- No vote for low -----

  /** With a positive vote and none for `low`, the verdict is never low. */
  lemma NoLowVote(cs: seq<Contribution>)
    requires exists c :: c in cs && c.activation > 0.0
    requires forall c | c in cs :: c.riskSet != Low
    ensures CrispRisk(cs) >= 0.25
    ensures FromCrisp(CrispRisk(cs)) != LowRisk
  {
    CrispRiskIsOfLevels(cs);
    StrongestIsMax(cs, Low);
    var l, xs := LevelsOf(cs), Grid(DEFUZZ_SAMPLES);
    var ys := Profile(l);
    ProfileIsNonNegative(l);
    forall i | 0 <= i < 100
      ensures ys[i] > 0.0 ==> 0.25 <= xs[i] <= 1.0
    {
      Quarters(l, i);
    }
    var c :| c in cs && c.activation > 0.0;
    StrongestIsMax(cs, c.riskSet);
    var peak := match c.riskSet case Medium => 37 case High => 62 case _ => 99;
    Quarters(l, peak);
    assert ys[peak] > 0.0;
    MassNonNegative(ys, 0, 100);
    CentroidBetween(xs, ys, 0.25, 1.0);
  }

  // ----- A full critical vote -----

  ghost predicate OnGrid(xs: seq<real>)
  {
    |xs| == DEFUZZ_SAMPLES && forall i | 0 <= i < DEFUZZ_SAMPLES :: xs[i] == (i as real + 0.5) / 100.0
  }

  ghost predicate FullRamp(ys: seq<real>)
  {
    |ys| == DEFUZZ_SAMPLES && forall i | 75 <= i < DEFUZZ_SAMPLES :: ys[i] == (i as real - 74.5) / 25.0
  }

  /** (1 + 3 + 5 + ... + (2k - 1)) / 200. */
  function Odds(k: nat): real
  {
    if k == 0 then 0.0 else Odds(k - 1) + (2.0 * (k - 1) as real + 1.0) / 200.0
  }

  lemma {:induction false} OddsAreSquares(k: nat)
    ensures Odds(k) == (k * k) as real / 200.0
  {
    if k > 0 {
      OddsAreSquares(k - 1);
      assert k * k == (k - 1) * (k - 1) + 2 * (k - 1) + 1;
    }
  }

  /** The last quarter under a full critical vote outweighs anything the second can hold. */
  lemma {:induction false} FullCriticalMoment(xs: seq<real>, ys: seq<real>, k: nat)
    requires OnGrid(xs) && FullRamp(ys) && k <= 25
    ensures Moment(xs, ys, 0.5, 75, 75 + k) >= Odds(k)
    ensures k > 0 ==> Moment(xs, ys, 0.5, 75, 75 + k) > Odds(k)
  {
    if k > 0 {
      FullCriticalMoment(xs, ys, k - 1);
      FullCriticalTerm(xs, ys, k - 1);
    }
  }

  lemma FullCriticalTerm(xs: seq<real>, ys: seq<real>, j: nat)
    requires OnGrid(xs) && FullRamp(ys) && j < 25
    ensures (xs[75 + j] - 0.5) * ys[75 + j] > (2.0 * j as real + 1.0) / 200.0
  {
  }

  lemma {:induction false} SecondQuarterMoment(xs: seq<real>, ys: seq<real>, k: nat)
    requires OnGrid(xs) && |ys| == |xs| && k <= 25
    requires forall i | 25 <= i < 50 :: 0.0 <= ys[i] <= 1.0
    ensures Moment(xs, ys, 0.5, 25, 25 + k) >= Odds(k) - k as real / 4.0
  {
    if k > 0 {
      var j := k - 1;
      SecondQuarterMoment(xs, ys, j);
      var y, g := ys[25 + j], xs[25 + j] - 0.5;
      assert g == 0.01 * j as real - 0.245;
      TermSign(g, 1.0 - y);
      assert g * (1.0 - y) == g - g * y;
    }
  }

  /** A full vote for `critical` with none for `low` always comes out high or critical, whatever
      the votes for `medium` and `high`. */
  lemma FullCriticalVote(cs: seq<Contribution>)
    requires exists c :: c in cs && c.riskSet == Critical && c.activation >= 1.0
    requires forall c | c in cs :: c.riskSet != Low
    ensures CrispRisk(cs) > 0.5
    ensures FromCrisp(CrispRisk(cs)) == HighRisk || FromCrisp(CrispRisk(cs)) == CriticalRisk
  {
    CrispRiskIsOfLevels(cs);
    StrongestIsMax(cs, Low);
    StrongestIsMax(cs, Critical);
    GridPoints();
    var l, xs := LevelsOf(cs), Grid(DEFUZZ_SAMPLES);
    var ys := Profile(l);
    ProfileIsNonNegative(l);
    forall i | 0 <= i < 25 || 50 <= i < 75
      ensures ys[i] > 0.0 ==> xs[i] >= 0.5
    {
      Quarters(l, i);
    }
    forall i | 75 <= i < 100
      ensures ys[i] == (i as real - 74.5) / 25.0
    {
      Quarters(l, i);
      CriticalRamp(i);
    }
    FullVoteBalance(xs, ys);
  }

  lemma FullVoteBalance(xs: seq<real>, ys: seq<real>)
    requires OnGrid(xs) && FullRamp(ys) && NonNegative(ys)
    requires forall i | 0 <= i < 25 || 50 <= i < 75 :: ys[i] > 0.0 ==> xs[i] >= 0.5
    requires forall i | 25 <= i < 50 :: ys[i] <= 1.0
    ensures CentroidOf(xs, ys) > 0.5
  {
    MomentRight(xs, ys, 0.5, 0, 25);
    SecondQuarterMoment(xs, ys, 25);
    MomentRight(xs, ys, 0.5, 50, 75);
    FullCriticalMoment(xs, ys, 25);
    OddsAreSquares(25);
    MomentSplits(xs, ys, 0.5, 0, 25, 50);
    MomentSplits(xs, ys, 0.5, 0, 50, 75);
    MomentSplits(xs, ys, 0.5, 0, 75, 100);
    MassNonNegative(ys, 0, 100);
    assert ys[99] > 0.0;
    CentroidByMoment(xs, ys, 0.5);
  }

  // ----- A lone signal -----

  /** One or more votes, all for one set, each with a degree in (0, 1]. */
  predicate Lone(cs: seq<Contribution>, s: RiskSet)
  {
    cs != [] && forall c | c in cs :: c.riskSet == s && 0.0 < c.activation <= 1.0
  }

  lemma LoneLevels(cs: seq<Contribution>, s: RiskSet)
    requires Lone(cs, s)
    ensures 0.0 < Of(LevelsOf(cs), s) <= 1.0
    ensures forall t: RiskSet :: t != s ==> Of(LevelsOf(cs), t) == 0.0
  {
    assert cs[0] in cs;
    StrongestIsMax(cs, s);
    forall t: RiskSet | t != s
      ensures Of(LevelsOf(cs), t) == 0.0
    {
      StrongestIsMax(cs, t);
    }
  }

  lemma LoneLow(l: Levels)
    requires 0.0 < l.low <= 1.0 && l.medium == l.high == l.critical == 0.0
    ensures Crisp(l) < 0.25
  {
    var xs, ys := Grid(DEFUZZ_SAMPLES), Profile(l);
    ProfileIsNonNegative(l);
    forall i | 0 <= i < 100
      ensures xs[i] == (i as real + 0.5) / 100.0 && ys[i] == Clipped(Low, l.low, xs[i]) && (i >= 40 ==> ys[i] == 0.0)
    {
      Quarters(l, i);
    }
    forall i, j | 1 <= i <= j < 49 && i + j == 49
      ensures ys[i] >= ys[j]
    {
      ShoulderFalls(0.15, 0.4, xs[i], xs[j]);
    }
    assert ys[0] == l.low;
    LeftOfQuarter(xs, ys);
  }

  /** Weights on the grid that fall from left to right about 0.25, with none on the right half. */
  lemma LeftOfQuarter(xs: seq<real>, ys: seq<real>)
    requires OnGrid(xs) && |ys| == |xs| && NonNegative(ys) && ys[0] > 0.0
    requires forall i, j | 1 <= i <= j < 49 && i + j == 49 :: ys[i] >= ys[j]
    requires forall i | 49 <= i < 100 :: ys[i] == 0.0
    ensures CentroidOf(xs, ys) < 0.25
  {
    MirrorTips(xs, ys, 0.25, 1, 49);
    MomentFront(xs, ys, 0.25, 0, 49);
    MomentSplits(xs, ys, 0.25, 0, 49, 100);
    MomentZero(xs, ys, 0.25, 49, 100);
    MassNonNegative(ys, 0, 100);
    CentroidByMoment(xs, ys, 0.25);
  }

  lemma ShoulderFalls(plateau: real, zero: real, x: real, x': real)
    requires plateau < zero && x <= x'
    ensures Evaluate(LeftShoulder(plateau, zero), x) >= Evaluate(LeftShoulder(plateau, zero), x')
  {
    var d, r, r' := zero - plateau, Evaluate(LeftShoulder(plateau, zero), x), Evaluate(LeftShoulder(plateau, zero), x');
    if plateau < x && x' < zero {
      assert r * d == zero - x && r' * d == zero - x';
      assert (r - r') * d == x' - x;
      PositiveFactor(r - r', d);
    }
  }

  /** The two triangles are symmetric on the grid, so their centroids are their peaks. */
  lemma LoneTriangle(l: Levels, s: RiskSet, first: nat, peak: real)
    requires (s == Medium && first == 25 && peak == 0.375) || (s == High && first == 50 && peak == 0.625)
    requires 0.0 < Of(l, s) <= 1.0 && forall t: RiskSet :: t != s ==> Of(l, t) == 0.0
    ensures Crisp(l) == peak
  {
    assert Of(l, Low) == 0.0 && Of(l, Critical) == 0.0;
    assert (s == High ==> Of(l, Medium) == 0.0) && (s == Medium ==> Of(l, High) == 0.0);
    var xs, ys := Grid(DEFUZZ_SAMPLES), Profile(l);
    var last := first + 25;
    ProfileIsNonNegative(l);
    forall i | 0 <= i < 100
      ensures xs[i] == (i as real + 0.5) / 100.0
      ensures ys[i] == if first <= i < last then Clipped(s, Of(l, s), xs[i]) else 0.0
    {
      Quarters(l, i);
    }
    forall i, j | first <= i <= j < last && i + j == first + last - 1
      ensures xs[i] + xs[j] == 2.0 * peak && ys[i] == ys[j]
    {
      TriangleMirrors(peak, xs[i]);
      assert xs[j] == 2.0 * peak - xs[i];
    }
    assert ys[first + 12] > 0.0;
    BalancedCentroid(xs, ys, peak, first, last, first + 12);
  }

  /** Weights that mirror each other about `c`, with nothing outside them, have their centroid at `c`. */
  lemma BalancedCentroid(xs: seq<real>, ys: seq<real>, c: real, first: nat, last: nat, k: nat)
    requires first <= k < last <= |ys| == |xs| && NonNegative(ys) && Balanced(xs, ys, c, first, last) && ys[k] > 0.0
    requires forall i | 0 <= i < first || last <= i < |ys| :: ys[i] == 0.0
    ensures CentroidOf(xs, ys) == c
  {
    MirrorCancels(xs, ys, c, first, last);
    MomentZero(xs, ys, c, 0, first);
    MomentZero(xs, ys, c, last, |ys|);
    MomentSplits(xs, ys, c, 0, first, last);
    MomentSplits(xs, ys, c, 0, last, |ys|);
    MassNonNegative(ys, 0, |ys|);
    CentroidByMoment(xs, ys, c);
  }

  lemma TriangleMirrors(peak: real, x: real)
    ensures Evaluate(Triangular(peak - 0.125, peak, peak + 0.125), x)
         == Evaluate(Triangular(peak - 0.125, peak, peak + 0.125), 2.0 * peak - x)
  {
  }

  lemma LoneCritical(l: Levels)
    requires 0.0 < l.critical <= 1.0 && l.low == l.medium == l.high == 0.0
    ensures 0.75 <= Crisp(l) <= 1.0
  {
    var xs, ys := Grid(DEFUZZ_SAMPLES), Profile(l);
    ProfileIsNonNegative(l);
    forall i | 0 <= i < 100
      ensures ys[i] > 0.0 ==> 0.75 <= xs[i] <= 1.0
    {
      Quarters(l, i);
    }
    Quarters(l, 99);
    CriticalRamp(99);
    MassNonNegative(ys, 0, 100);
    CentroidBetween(xs, ys, 0.75, 1.0);
  }

  function Bucket(s: RiskSet): Verdict
  {
    match s case Low => LowRisk case Medium => MediumRisk case High => HighRisk case Critical => CriticalRisk
  }

  /** A lone signal lands in its own bucket at every strength; the middle two come out at the
      peaks of their sets exactly. */
  lemma LoneSignal(cs: seq<Contribution>, s: RiskSet)
    requires Lone(cs, s)
    ensures FromCrisp(CrispRisk(cs)) == Bucket(s)
    ensures s == Medium ==> CrispRisk(cs) == 0.375
    ensures s == High ==> CrispRisk(cs) == 0.625
  {
    CrispRiskIsOfLevels(cs);
    var l := LevelsOf(cs);
    LoneLevels(cs, s);
    CrispInUnit(cs);
    assert forall t: RiskSet :: t != s ==> Of(l, t) == 0.0;
    assert Of(l, Low) == l.low && Of(l, Medium) == l.medium && Of(l, High) == l.high && Of(l, Critical) == l.critical;
    match s
    case Low => LoneLow(l);
    case Medium => LoneTriangle(l, Medium, 25, 0.375);
    case High => LoneTriangle(l, High, 50, 0.625);
    case Critical => LoneCritical(l);
  }

  // ----- Raising the critical vote -----

  lemma ClipRatio(cj: real, ci: real, a: real, b: real)
    requires 0.0 <= cj <= ci && 0.0 <= a <= b
    ensures MinReal(ci, b) * MinReal(cj, a) >= MinReal(cj, b) * MinReal(ci, a)
  {
  }

  function Ramp(i: nat): real { (i as real - 74.5) / 25.0 }

  /** Two profiles that agree on the first three quarters and clip the ramp of the last at `a` and at `b`. */
  ghost predicate RampsClipped(ys: seq<real>, zs: seq<real>, a: real, b: real)
  {
    && |ys| == |zs| == DEFUZZ_SAMPLES
    && (forall i | 0 <= i < 75 :: ys[i] == zs[i])
    && (forall i | 75 <= i < 100 :: ys[i] == MinReal(Ramp(i), a) && zs[i] == MinReal(Ramp(i), b))
  }

  lemma ProfilesClipRamps(l: Levels, m: Levels)
    requires Proper(l) && m == l.(critical := m.critical) && m.critical >= l.critical
    ensures RampsClipped(Profile(l), Profile(m), l.critical, m.critical)
  {
  }

  /** A stronger critical vote favours later points of the grid. */
  lemma ClippedRampsFavour(ys: seq<real>, zs: seq<real>, a: real, b: real)
    requires RampsClipped(ys, zs, a, b) && NonNegative(ys) && 0.0 <= a <= b
    ensures Favours(ys, zs)
    ensures forall i | 0 <= i < 100 :: ys[i] <= zs[i]
  {
    forall i, j | 0 <= j < i < |ys|
      ensures zs[i] * ys[j] >= zs[j] * ys[i]
    {
      if j >= 75 {
        ClipRatio(Ramp(j), Ramp(i), a, b);
      } else {
        TermSign(zs[i] - ys[i], ys[j]);
        assert (zs[i] - ys[i]) * ys[j] == zs[i] * ys[j] - ys[i] * ys[j];
      }
    }
  }

  lemma CrispGrowsWithCritical(l: Levels, m: Levels)
    requires Proper(l) && m == l.(critical := m.critical) && m.critical >= l.critical
    ensures Crisp(l) <= Crisp(m)
  {
    var xs, ys, zs := Grid(DEFUZZ_SAMPLES), Profile(l), Profile(m);
    GridPoints();
    ProfileIsNonNegative(l);
    ProfileIsNonNegative(m);
    if Mass(ys, 0, 100) <= 0.0 {
      if Mass(zs, 0, 100) > 0.0 { CentroidBetween(xs, zs, 0.0, 1.0); }
    } else {
      ProfilesClipRamps(l, m);
      ClippedRampsFavour(ys, zs, l.critical, m.critical);
      MassGrows(ys, zs, 100);
      CentroidsOrdered(xs, ys, zs);
    }
  }

  lemma {:induction false} MassGrows(ys: seq<real>, zs: seq<real>, k: nat)
    requires k <= |ys| == |zs| && forall i | 0 <= i < |ys| :: ys[i] <= zs[i]
    ensures Mass(ys, 0, k) <= Mass(zs, 0, k)
  {
    if k > 0 { MassGrows(ys, zs, k - 1); }
  }

  /** Adding a vote for `critical`, at any activation and to any votes, never lowers the risk. */
  lemma AddingCritical(cs: seq<Contribution>, activation: real)
    ensures CrispRisk(cs + [Contribution(activation, Critical)]) >= CrispRisk(cs)
  {
    var ds := cs + [Contribution(activation, Critical)];
    assert ds[..|cs|] == cs;
    CrispRiskIsOfLevels(cs);
    CrispRiskIsOfLevels(ds);
    CrispGrowsWithCritical(LevelsOf(cs), LevelsOf(ds));
  }

  /** Raising the activation of a vote for `critical` never lowers the risk. */
  lemma RaisingCritical(cs: seq<Contribution>, k: nat, activation: real)
    requires k < |cs| && cs[k].riskSet == Critical && activation >= cs[k].activation
    ensures CrispRisk(cs[k := Contribution(activation, Critical)]) >= CrispRisk(cs)
  {
    var ds := cs[k := Contribution(activation, Critical)];
    CrispRiskIsOfLevels(cs);
    CrispRiskIsOfLevels(ds);
    RaisedLevels(cs, k, activation);
    CrispGrowsWithCritical(LevelsOf(cs), LevelsOf(ds));
  }

  lemma RaisedLevels(cs: seq<Contribution>, k: nat, activation: real)
    requires k < |cs| && cs[k].riskSet == Critical && activation >= cs[k].activation
    ensures var (l, m) := (LevelsOf(cs), LevelsOf(cs[k := Contribution(activation, Critical)]));
            m == l.(critical := m.critical) && m.critical >= l.critical
  {
    RaisedStrongest(cs, k, activation, Low);
    RaisedStrongest(cs, k, activation, Medium);
    RaisedStrongest(cs, k, activation, High);
    RaisedStrongest(cs, k, activation, Critical);
  }

  lemma {:induction false} RaisedStrongest(cs: seq<Contribution>, k: nat, activation: real, s: RiskSet)
    requires k < |cs| && cs[k].riskSet == Critical && activation >= cs[k].activation
    ensures var raised := Strongest(cs[k := Contribution(activation, Critical)], s);
            if s == Critical then raised >= Strongest(cs, s) else raised == Strongest(cs, s)
    decreases |cs|
  {
    var n := |cs| - 1;
    var ds := cs[k := Contribution(activation, Critical)];
    if k < n {
      assert ds[..n] == cs[..n][k := Contribution(activation, Critical)];
      RaisedStrongest(cs[..n], k, activation, s);
    } else {
      assert ds[..n] == cs[..n];
    }
  }
}
