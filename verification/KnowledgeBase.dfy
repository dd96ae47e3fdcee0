/** The rule base and its input variables: backend/crates/thalos-intelligence/src/kb.rs. */
module KnowledgeBase {
  import opened Prelude
  import opened Fuzzy
  import opened Risk

  datatype LinguisticVar = Manipulability | SingularityProximity | CollisionClearance

  /** Names of rules, facts, sets and evidence: those of the default rule base, and any other. */
  datatype RuleId =
    | R01_collision_danger | R02_collision_near | R03_collision_danger_evidence
    | R04_singularity_medium | R05_manipulability_medium | R07_low_manipulability
    | R08_safe_clearance | R09_near_singularity | R10_manipulability_high
    | R11_compromised_manipulability | R12_safe_plan
    | OtherRule(name: string)

  datatype Fact =
    | danger_zone | low_manipulability | safe_clearance | near_singularity | good_manipulability
    | OtherFact(name: string)

  datatype SetName = low | medium | high | danger | near | safe | OtherSet(name: string)

  datatype EvidenceKey =
    | collision_danger | manipulability_low | singularity_high | critical_combination
    | OtherEvidence(name: string)

  datatype Category = Collision | Singularity | ManipulabilityCategory | Trajectory

  datatype Antecedent =
    | MetricIs(variable: LinguisticVar, setName: SetName)
    | FactEquals(fact: Fact, value: bool)

  datatype Consequent =
    | DeriveFact(fact: Fact, value: bool)
    | MarkEvidence(key: EvidenceKey, amount: real)
    | RiskIs(riskSet: RiskSet)

  datatype Rule = Rule(
    id: RuleId, category: Category, priority: nat,
    antecedents: seq<Antecedent>, consequents: seq<Consequent>)

  const DEFAULT_KB: seq<Rule> := [
    Rule(R01_collision_danger, Collision, 10, [MetricIs(CollisionClearance, danger)], [RiskIs(Critical)]),
    Rule(R02_collision_near, Collision, 8, [MetricIs(CollisionClearance, near)], [RiskIs(High)]),
    Rule(R03_collision_danger_evidence, Collision, 6, [MetricIs(CollisionClearance, danger)],
         [DeriveFact(danger_zone, true), MarkEvidence(collision_danger, 1.0)]),
    Rule(R04_singularity_medium, Singularity, 5, [MetricIs(SingularityProximity, medium)], [RiskIs(Medium)]),
    Rule(R05_manipulability_medium, ManipulabilityCategory, 5, [MetricIs(Manipulability, medium)], [RiskIs(Medium)]),
    Rule(R07_low_manipulability, ManipulabilityCategory, 3, [MetricIs(Manipulability, low)],
         [RiskIs(High), DeriveFact(low_manipulability, true), MarkEvidence(manipulability_low, 1.0)]),
    Rule(R08_safe_clearance, Collision, 2, [MetricIs(CollisionClearance, safe)], [DeriveFact(safe_clearance, true)]),
    Rule(R09_near_singularity, Singularity, 3, [MetricIs(SingularityProximity, high)],
         [RiskIs(High), DeriveFact(near_singularity, true), MarkEvidence(singularity_high, 1.0)]),
    Rule(R10_manipulability_high, ManipulabilityCategory, 2, [MetricIs(Manipulability, high)],
         [DeriveFact(good_manipulability, true)]),
    Rule(R11_compromised_manipulability, ManipulabilityCategory, 10,
         [FactEquals(low_manipulability, true), FactEquals(near_singularity, true)],
         [RiskIs(Critical), MarkEvidence(critical_combination, 1.0)]),
    Rule(R12_safe_plan, Trajectory, 1,
         [FactEquals(safe_clearance, true), MetricIs(SingularityProximity, low), MetricIs(Manipulability, high)],
         [RiskIs(Low)])
  ]

  // ----- Rule base validation -----

  datatype KbError = CountOutOfRange(actual: nat) | DuplicateId(id: RuleId) | PriorityOutOfRange(id: RuleId)

  predicate UniqueIds(kb: seq<Rule>)
  {
    forall i, j | 0 <= i < j < |kb| :: kb[i].id != kb[j].id
  }

  predicate PrioritiesInRange(kb: seq<Rule>) { forall i | 0 <= i < |kb| :: 1 <= kb[i].priority <= 10 }

  predicate Repeats(kb: seq<Rule>, i: nat)
    requires i < |kb|
  {
    exists k :: 0 <= k < i && kb[k].id == kb[i].id
  }

  /** The error names the first rule at fault, a repeated id before a wrong priority. */
  predicate Blames(kb: seq<Rule>, e: KbError)
  {
    match e
    case CountOutOfRange(actual) => actual == |kb| && !(10 <= |kb| <= 15)
    case DuplicateId(id) =>
      exists i: nat :: i < |kb| && kb[i].id == id && Repeats(kb, i) && UniqueIds(kb[..i]) && PrioritiesInRange(kb[..i])
    case PriorityOutOfRange(id) =>
      exists i: nat :: i < |kb| && kb[i].id == id && !(1 <= kb[i].priority <= 10)
                    && UniqueIds(kb[..i + 1]) && PrioritiesInRange(kb[..i])
  }

  /** Accepts exactly the rule bases of 10 to 15 rules with unique ids and priorities 1 to 10. */
  method Validate(kb: seq<Rule>) returns (r: Result<(), KbError>)
    ensures r.Success? <==> 10 <= |kb| <= 15 && UniqueIds(kb) && PrioritiesInRange(kb)
    ensures r.Failure? ==> Blames(kb, r.error)
  {
    if !(10 <= |kb| <= 15) { return Failure(CountOutOfRange(|kb|)); }
    var seen: set<RuleId> := {};
    for i := 0 to |kb|
      invariant UniqueIds(kb[..i]) && PrioritiesInRange(kb[..i])
      invariant seen == set k | 0 <= k < i :: kb[k].id
    {
      if kb[i].id in seen {
        assert Repeats(kb, i);
        return Failure(DuplicateId(kb[i].id));
      }
      seen := seen + {kb[i].id};
      assert UniqueIds(kb[..i + 1]);
      if !(1 <= kb[i].priority <= 10) { return Failure(PriorityOutOfRange(kb[i].id)); }
    }
    assert kb[..|kb|] == kb;
    return Success(());
  }

  // ----- Input variables -----

  /** The fuzzy sets of an input variable, in declaration order. */
  function SetsOf(v: LinguisticVar): seq<(SetName, Shape)>
  {
    match v
    case Manipulability =>
      [(low, LeftShoulder(0.0, 0.3)), (medium, Triangular(0.15, 0.3, 0.5)), (high, RightShoulder(0.5, 0.7))]
    case SingularityProximity =>
      [(low, LeftShoulder(0.05, 0.1)), (medium, Triangular(0.05, 0.1, 0.3)), (high, Trapezoidal(0.2, 0.3, 1.0, 1.0))]
    case CollisionClearance =>
      [(danger, LeftShoulder(0.0, 0.01)), (near, Triangular(0.0, 0.01, 0.05)), (safe, RightShoulder(0.05, 0.1))]
  }

  /** Degrees of membership; a set that is absent has degree 0. */
  type Memberships = map<(LinguisticVar, SetName), real>

  function Degree(m: Memberships, v: LinguisticVar, s: SetName): real
  {
    if (v, s) in m then m[(v, s)] else 0.0
  }
}
