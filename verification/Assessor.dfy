/** The assessor: backend/crates/thalos-intelligence/src/lib.rs. */
module Assessor {
  import opened Prelude
  import opened Fuzzy
  import opened Risk
  import opened KnowledgeBase
  import opened Engine
  import opened EngineProofs

  datatype ObservationKind = SingularityEvent | NearSingularityEvent | OtherEvent

  /** The parts of an analysis report that the verdict reads. */
  datatype Report = Report(metrics: map<string, real>, observations: seq<ObservationKind>)

  datatype Inputs = Inputs(manipulability: real, clearance: real, singularity: real)

  // ----- Inputs -----

  function Metric(report: Report, name: string, missing: real): real
  {
    if name in report.metrics then report.metrics[name] else missing
  }

  function SeverityOf(singular: bool, near: bool): real
  {
    if singular then 0.5 else if near then 0.15 else 0.0
  }

  /** Presence and severity of singularity events: from the observations, and only when there are
      none of any kind from the aggregated counts. */
  function Singularities(report: Report): real
  {
    if report.observations == [] then
      SeverityOf(Metric(report, "singular_count", 0.0) > 0.0, Metric(report, "near_singular_count", 0.0) > 0.0)
    else
      SeverityOf(SingularityEvent in report.observations, NearSingularityEvent in report.observations)
  }

  function InputsOf(report: Report): Inputs
  {
    Inputs(
      Metric(report, "avg_manipulability", Metric(report, "min_manipulability", 0.0)),
      Metric(report, "min_collision_distance", 1.0),
      Singularities(report))
  }

  method SeverityFromObservations(observations: seq<ObservationKind>) returns (severity: real)
    ensures severity == SeverityOf(SingularityEvent in observations, NearSingularityEvent in observations)
  {
    var singular, near := 0, 0;
    for i := 0 to |observations|
      invariant singular >= 0 && near >= 0
      invariant singular > 0 <==> SingularityEvent in observations[..i]
      invariant near > 0 <==> NearSingularityEvent in observations[..i]
    {
      match observations[i]
      case SingularityEvent => singular := singular + 1;
      case NearSingularityEvent => near := near + 1;
      case OtherEvent =>
    }
    assert observations[..|observations|] == observations;
    severity := if singular > 0 then 0.5 else if near > 0 then 0.15 else 0.0;
  }

  method ExtractInputs(report: Report) returns (inputs: Inputs)
    ensures inputs == InputsOf(report)
  {
    var average := if "avg_manipulability" in report.metrics then Some(report.metrics["avg_manipulability"]) else None;
    var least := if "min_manipulability" in report.metrics then Some(report.metrics["min_manipulability"]) else None;
    var manipulability := if average.Some? then average.value else if least.Some? then least.value else 0.0;
    var clearance := if "min_collision_distance" in report.metrics then report.metrics["min_collision_distance"] else 1.0;
    var singularity: real;
    if report.observations == [] {
      var near := Metric(report, "near_singular_count", 0.0);
      var singular := Metric(report, "singular_count", 0.0);
      singularity := if singular > 0.0 then 0.5 else if near > 0.0 then 0.15 else 0.0;
    } else {
      singularity := SeverityFromObservations(report.observations);
    }
    inputs := Inputs(manipulability, clearance, singularity);
  }

  // ----- Fuzzification -----

  /** The positive degrees of the sets of one variable. */
  function DegreesIn(v: LinguisticVar, sets: seq<(SetName, Shape)>, x: real): Memberships
  {
    if sets == [] then map[]
    else
      var before, last := DegreesIn(v, sets[..|sets| - 1], x), sets[|sets| - 1];
      if Evaluate(last.1, x) > 0.0 then before[(v, last.0) := Evaluate(last.1, x)] else before
  }

  function MembershipsOf(inputs: Inputs): Memberships
  {
    DegreesIn(Manipulability, SetsOf(Manipulability), inputs.manipulability)
    + DegreesIn(SingularityProximity, SetsOf(SingularityProximity), inputs.singularity)
    + DegreesIn(CollisionClearance, SetsOf(CollisionClearance), inputs.clearance)
  }

  method FuzzifyOne(m: Memberships, v: LinguisticVar, x: real) returns (filled: Memberships)
    ensures filled == m + DegreesIn(v, SetsOf(v), x)
  {
    filled := m;
    var sets := SetsOf(v);
    for i := 0 to |sets|
      invariant filled == m + DegreesIn(v, sets[..i], x)
    {
      assert sets[..i + 1][..i] == sets[..i];
      var degree := Evaluate(sets[i].1, x);
      if degree > 0.0 { filled := filled[(v, sets[i].0) := degree]; }
    }
    assert sets[..|sets|] == sets;
  }

  method Fuzzify(inputs: Inputs) returns (m: Memberships)
    ensures m == MembershipsOf(inputs)
  {
    m := map[];
    m := FuzzifyOne(m, Manipulability, inputs.manipulability);
    m := FuzzifyOne(m, SingularityProximity, inputs.singularity);
    m := FuzzifyOne(m, CollisionClearance, inputs.clearance);
  }

  lemma {:induction false} OnlyOwnKeys(v: LinguisticVar, sets: seq<(SetName, Shape)>, x: real, key: (LinguisticVar, SetName))
    requires key.0 != v || forall i | 0 <= i < |sets| :: sets[i].0 != key.1
    ensures key !in DegreesIn(v, sets, x)
  {
    if sets != [] { OnlyOwnKeys(v, sets[..|sets| - 1], x, key); }
  }

  lemma {:induction false} DegreeIn(v: LinguisticVar, sets: seq<(SetName, Shape)>, x: real, k: nat)
    requires k < |sets| && forall i, j | 0 <= i < j < |sets| :: sets[i].0 != sets[j].0
    ensures Degree(DegreesIn(v, sets, x), v, sets[k].0) == Evaluate(sets[k].1, x)
  {
    var n := |sets| - 1;
    if k < n {
      DegreeIn(v, sets[..n], x, k);
    } else {
      OnlyOwnKeys(v, sets[..n], x, (v, sets[n].0));
    }
  }

  function InputOf(inputs: Inputs, v: LinguisticVar): real
  {
    match v
    case Manipulability => inputs.manipulability
    case SingularityProximity => inputs.singularity
    case CollisionClearance => inputs.clearance
  }

  /** A set's degree is its shape at the variable's input. */
  lemma DegreeIs(inputs: Inputs, v: LinguisticVar, k: nat)
    requires k < |SetsOf(v)|
    ensures Degree(MembershipsOf(inputs), v, SetsOf(v)[k].0) == Evaluate(SetsOf(v)[k].1, InputOf(inputs, v))
  {
    var key := (v, SetsOf(v)[k].0);
    if v != Manipulability { OnlyOwnKeys(Manipulability, SetsOf(Manipulability), inputs.manipulability, key); }
    if v != SingularityProximity { OnlyOwnKeys(SingularityProximity, SetsOf(SingularityProximity), inputs.singularity, key); }
    if v != CollisionClearance { OnlyOwnKeys(CollisionClearance, SetsOf(CollisionClearance), inputs.clearance, key); }
    DegreeIn(v, SetsOf(v), InputOf(inputs, v), k);
  }

  // ----- The assessment -----

  datatype TriggeredRule = TriggeredRule(id: RuleId, category: Category, priority: nat)

  datatype Assessment = Assessment(
    risk: Verdict, quality: real, triggered: seq<TriggeredRule>,
    evidence: map<EvidenceKey, real>, trace: seq<TraceEntry>)

  function Clamp01(x: real): real { if x < 0.0 then 0.0 else if x > 1.0 then 1.0 else x }

  function Find(kb: seq<Rule>, id: RuleId): (r: Rule)
    requires id in Ids(kb)
    ensures r in kb && r.id == id
  {
    if kb[0].id == id then kb[0] else
      assert id in Ids(kb[1..]) by {
        var i :| 0 <= i < |kb| && kb[i].id == id;
        assert kb[1..][i - 1] == kb[i];
      }
      Find(kb[1..], id)
  }

  /** The rule is in the rule base with this id, category and priority. */
  predicate OfRule(kb: seq<Rule>, t: TriggeredRule)
  {
    exists r | r in kb :: t == TriggeredRule(r.id, r.category, r.priority)
  }

  function TriggeredBy(kb: seq<Rule>, trace: seq<TraceEntry>): (triggered: seq<TriggeredRule>)
    requires TraceIds(trace) <= Ids(kb)
    ensures |triggered| == |trace|
    ensures forall i | 0 <= i < |trace| :: triggered[i].id == trace[i].id && OfRule(kb, triggered[i])
  {
    if trace == [] then []
    else
      assert trace[0].id in TraceIds(trace);
      assert forall i | 0 <= i < |trace[1..]| :: trace[1..][i].id == trace[i + 1].id && trace[i + 1].id in TraceIds(trace);
      var rule := Find(kb, trace[0].id);
      [TriggeredRule(rule.id, rule.category, rule.priority)] + TriggeredBy(kb, trace[1..])
  }

  function Deduction(report: Report): Memory { Inferred(DEFAULT_KB, MembershipsOf(InputsOf(report)), MAX_ITERATIONS) }

  /** Every rule in the trace is one of the rule base's, so looking it up never fails. */
  lemma TraceIsFromRules(report: Report)
    ensures Logged(Deduction(report)) && TraceIds(Deduction(report).trace) <= Ids(DEFAULT_KB)
  {
    var m := MembershipsOf(InputsOf(report));
    DefaultIsMonotone();
    RunReachesQuiescence(DEFAULT_KB, m, MAX_ITERATIONS);
    FiredIsLeastClosure(DEFAULT_KB, m, MAX_ITERATIONS);
  }

  function EvidenceOf(inputs: Inputs, marked: map<EvidenceKey, real>): map<EvidenceKey, real>
  {
    map[OtherEvidence("manipulability") := inputs.manipulability,
        OtherEvidence("singularity_proximity") := inputs.singularity,
        OtherEvidence("collision_clearance") := inputs.clearance] + marked
  }

  function CrispOf(report: Report): real { CrispRisk(Deduction(report).votes) }

  /** The verdict can be read off the quality. */
  lemma QualityTells(crisp: real)
    requires 0.0 <= crisp <= 1.0
    ensures Clamp01(1.0 - crisp) == 1.0 - crisp
    ensures FromCrisp(crisp) == LowRisk <==> 1.0 - crisp > 0.75
    ensures FromCrisp(crisp) == MediumRisk <==> 0.5 < 1.0 - crisp <= 0.75
    ensures FromCrisp(crisp) == HighRisk <==> 0.25 < 1.0 - crisp <= 0.5
    ensures FromCrisp(crisp) == CriticalRisk <==> 1.0 - crisp <= 0.25
  {
  }

  method Assess(report: Report) returns (a: Assessment)
    ensures a.risk == FromCrisp(CrispOf(report)) && a.quality == 1.0 - CrispOf(report)
    ensures a.risk == LowRisk <==> a.quality > 0.75
    ensures a.risk == MediumRisk <==> 0.5 < a.quality <= 0.75
    ensures a.risk == HighRisk <==> 0.25 < a.quality <= 0.5
    ensures a.risk == CriticalRisk <==> a.quality <= 0.25
    ensures a.trace == Deduction(report).trace
    ensures a.evidence == EvidenceOf(InputsOf(report), Deduction(report).evidence)
    ensures |a.triggered| == |a.trace|
    ensures forall i | 0 <= i < |a.trace| :: a.triggered[i].id == a.trace[i].id && OfRule(DEFAULT_KB, a.triggered[i])
  {
    var inputs := ExtractInputs(report);
    var m := Fuzzify(inputs);
    var w := Run(DEFAULT_KB, m, MAX_ITERATIONS);
    var crisp := DefuzzifyRisk(w.votes);
    CrispInUnit(w.votes);
    QualityTells(crisp);
    TraceIsFromRules(report);
    a := Assessment(FromCrisp(crisp), Clamp01(1.0 - crisp), TriggeredBy(DEFAULT_KB, w.trace), EvidenceOf(inputs, w.evidence), w.trace);
  }

  // ----- Density invariance -----

  const CORE := {"avg_manipulability", "min_manipulability", "min_collision_distance"}

  /** The reports agree on the metrics of reach and clearance, absences included. */
  predicate SameReadings(a: Report, b: Report)
  {
    forall name | name in CORE ::
      (name in a.metrics <==> name in b.metrics) && (name in a.metrics ==> a.metrics[name] == b.metrics[name])
  }

  /** An event of a kind occurs, however often: as an observation, or by its count in a report without any. */
  ghost predicate Occurs(report: Report, kind: ObservationKind, counter: string)
  {
    if report.observations == [] then counter in report.metrics && report.metrics[counter] > 0.0
    else exists i :: 0 <= i < |report.observations| && report.observations[i] == kind
  }

  ghost predicate Singular(report: Report) { Occurs(report, SingularityEvent, "singular_count") }

  ghost predicate NearSingular(report: Report) { Occurs(report, NearSingularityEvent, "near_singular_count") }

  /** The worst event of both is the same. */
  ghost predicate SameWorstEvent(a: Report, b: Report)
  {
    (Singular(a) <==> Singular(b)) && (Singular(a) || (NearSingular(a) <==> NearSingular(b)))
  }

  lemma SeverityIs(report: Report)
    ensures Singularities(report) == if Singular(report) then 0.5 else if NearSingular(report) then 0.15 else 0.0
  {
  }

  /** Where each input comes from: the average manipulability, or else the least, or else 0; the least distance to an
      obstacle, or else 1; and the worst singularity event, 0.5 for a true one and 0.15 for a near one. */
  lemma InputsRead(report: Report)
    ensures "avg_manipulability" in report.metrics ==> InputsOf(report).manipulability == report.metrics["avg_manipulability"]
    ensures "avg_manipulability" !in report.metrics && "min_manipulability" in report.metrics
        ==> InputsOf(report).manipulability == report.metrics["min_manipulability"]
    ensures "avg_manipulability" !in report.metrics && "min_manipulability" !in report.metrics
        ==> InputsOf(report).manipulability == 0.0
    ensures "min_collision_distance" in report.metrics ==> InputsOf(report).clearance == report.metrics["min_collision_distance"]
    ensures "min_collision_distance" !in report.metrics ==> InputsOf(report).clearance == 1.0
    ensures Singular(report) ==> InputsOf(report).singularity == 0.5
    ensures !Singular(report) && NearSingular(report) ==> InputsOf(report).singularity == 0.15
    ensures !Singular(report) && !NearSingular(report) ==> InputsOf(report).singularity == 0.0
  {
    SeverityIs(report);
  }

  /** The inputs of reports with the same readings are the same just when their worst event is, whether it
      comes as an observation or as a count. */
  lemma WorstEventDecides(a: Report, b: Report)
    requires SameReadings(a, b)
    ensures InputsOf(a) == InputsOf(b) <==> SameWorstEvent(a, b)
  {
    SeverityIs(a);
    SeverityIs(b);
    assert Metric(a, "avg_manipulability", Metric(a, "min_manipulability", 0.0))
        == Metric(b, "avg_manipulability", Metric(b, "min_manipulability", 0.0)) by {
      assert "avg_manipulability" in CORE && "min_manipulability" in CORE;
    }
    assert Metric(a, "min_collision_distance", 1.0) == Metric(b, "min_collision_distance", 1.0) by {
      assert "min_collision_distance" in CORE;
    }
  }

  /** Each observation as many times as given. */
  function Denser(observations: seq<ObservationKind>, copies: seq<nat>): seq<ObservationKind>
    requires |copies| == |observations|
  {
    if observations == [] then []
    else
      var n := |observations| - 1;
      Denser(observations[..n], copies[..n]) + seq(copies[n], _ => observations[n])
  }

  lemma {:induction false} DenserHolds(observations: seq<ObservationKind>, copies: seq<nat>, kind: ObservationKind)
    requires |copies| == |observations| && forall i | 0 <= i < |copies| :: copies[i] > 0
    ensures kind in Denser(observations, copies) <==> kind in observations
    ensures Denser(observations, copies) == [] <==> observations == []
  {
    if observations != [] {
      var n := |observations| - 1;
      DenserHolds(observations[..n], copies[..n], kind);
      var block := seq(copies[n], _ => observations[n]);
      assert block[0] == observations[n];
      assert kind in block <==> kind == observations[n];
      assert observations == observations[..n] + [observations[n]];
    }
  }

  const COUNTERS := {"waypoint_count", "singular_count", "near_singular_count"}

  /** The report of the same plan sampled otherwise: every event seen that many times, every count scaled. */
  function Resampled(report: Report, copies: seq<nat>, scale: real): Report
    requires |copies| == |report.observations|
  {
    Report(
      map name | name in report.metrics :: if name in COUNTERS then report.metrics[name] * scale else report.metrics[name],
      Denser(report.observations, copies))
  }

  lemma ScaledSign(x: real, scale: real)
    requires scale > 0.0
    ensures x * scale > 0.0 <==> x > 0.0
  {
  }

  lemma ResampledCount(report: Report, copies: seq<nat>, scale: real, counter: string)
    requires |copies| == |report.observations| && scale > 0.0 && counter in COUNTERS
    ensures Metric(Resampled(report, copies, scale), counter, 0.0) > 0.0 <==> Metric(report, counter, 0.0) > 0.0
  {
    if counter in report.metrics { ScaledSign(report.metrics[counter], scale); }
  }

  /** However densely a plan is sampled, the same rules fire and the verdict is the same. */
  lemma DensityInvariance(report: Report, copies: seq<nat>, scale: real)
    requires |copies| == |report.observations| && forall i | 0 <= i < |copies| :: copies[i] > 0
    requires scale > 0.0
    ensures var other := Resampled(report, copies, scale);
            && InputsOf(other) == InputsOf(report) && Deduction(other) == Deduction(report)
            && FromCrisp(CrispOf(other)) == FromCrisp(CrispOf(report))
  {
    var other := Resampled(report, copies, scale);
    DenserHolds(report.observations, copies, SingularityEvent);
    DenserHolds(report.observations, copies, NearSingularityEvent);
    ResampledCount(report, copies, scale, "singular_count");
    ResampledCount(report, copies, scale, "near_singular_count");
    SameWorst(report, other);
    WorstEventDecides(report, other);
  }

  lemma SameWorst(a: Report, b: Report)
    requires a.observations == [] <==> b.observations == []
    requires SingularityEvent in a.observations <==> SingularityEvent in b.observations
    requires NearSingularityEvent in a.observations <==> NearSingularityEvent in b.observations
    requires Metric(a, "singular_count", 0.0) > 0.0 <==> Metric(b, "singular_count", 0.0) > 0.0
    requires Metric(a, "near_singular_count", 0.0) > 0.0 <==> Metric(b, "near_singular_count", 0.0) > 0.0
    ensures SameWorstEvent(a, b)
  {
  }

  // ----- Which rules fire -----

  /** The place of each default rule in the rule base. */
  function Place(id: RuleId): int
  {
    match id
    case R01_collision_danger => 0
    case R02_collision_near => 1
    case R03_collision_danger_evidence => 2
    case R04_singularity_medium => 3
    case R05_manipulability_medium => 4
    case R07_low_manipulability => 5
    case R08_safe_clearance => 6
    case R09_near_singularity => 7
    case R10_manipulability_high => 8
    case R11_compromised_manipulability => 9
    case R12_safe_plan => 10
    case OtherRule(_) => -1
  }

  lemma DefaultPlaces()
    ensures forall i | 0 <= i < |DEFAULT_KB| :: Place(DEFAULT_KB[i].id) == i
  {
  }

  lemma DefaultAsserts(i: nat)
    requires i < |DEFAULT_KB|
    ensures Asserting(BodyOf(DEFAULT_KB[i]))
  {
  }

  lemma DefaultIsMonotone()
    ensures Monotone(DEFAULT_KB) && |DEFAULT_KB| <= MAX_ITERATIONS
  {
    DefaultPlaces();
    forall r | r in DEFAULT_KB
      ensures Asserting(BodyOf(r))
    {
      var i :| 0 <= i < |DEFAULT_KB| && DEFAULT_KB[i] == r;
      DefaultAsserts(i);
    }
    AssertingIsMonotone(DEFAULT_KB);
  }
}
