/** What the assessor's verdict says about a report: backend/crates/thalos-intelligence/src/lib.rs:68-284. */
module Verdicts {
  import opened Prelude
  import opened Fuzzy
  import opened Risk
  import opened KnowledgeBase
  import opened Engine
  import opened EngineProofs
  import opened Assessor

  // ----- Which rules fire -----

  /** When each default rule fires, read off the inputs. */
  predicate Fires(id: RuleId, x: Inputs)
  {
    match id
    case R01_collision_danger => x.clearance < 0.01
    case R02_collision_near => 0.0 < x.clearance < 0.05
    case R03_collision_danger_evidence => x.clearance < 0.01
    case R04_singularity_medium => 0.05 < x.singularity < 0.3
    case R05_manipulability_medium => 0.15 < x.manipulability < 0.5
    case R07_low_manipulability => x.manipulability < 0.3
    case R08_safe_clearance => x.clearance > 0.05
    case R09_near_singularity => 0.2 < x.singularity <= 1.0
    case R10_manipulability_high => x.manipulability > 0.5
    case R11_compromised_manipulability => x.manipulability < 0.3 && 0.2 < x.singularity <= 1.0
    case R12_safe_plan => x.clearance > 0.05 && x.singularity < 0.1 && x.manipulability > 0.5
    case OtherRule(_) => false
  }

  ghost function FactsAt(report: Report): set<Fact> { FactsOf(Bodies(DEFAULT_KB), Deduction(report).fired, true) }

  lemma DefaultFires(report: Report, i: nat)
    requires i < |DEFAULT_KB|
    ensures DEFAULT_KB[i].id in Deduction(report).fired
       <==> Fireable(BodyOf(DEFAULT_KB[i]), MembershipsOf(InputsOf(report)), FactsAt(report))
  {
    DefaultIsMonotone();
    FiredIsLeastClosure(DEFAULT_KB, MembershipsOf(InputsOf(report)), MAX_ITERATIONS);
    assert BodyOf(DEFAULT_KB[i]) in Bodies(DEFAULT_KB);
  }

  lemma DefaultFacts(ids: set<RuleId>)
    ensures var facts := FactsOf(Bodies(DEFAULT_KB), ids, true);
            && (safe_clearance in facts <==> R08_safe_clearance in ids)
            && (low_manipulability in facts <==> R07_low_manipulability in ids)
            && (near_singularity in facts <==> R09_near_singularity in ids)
  {
    DefaultDeriver(6, safe_clearance);
    DefaultDeriver(5, low_manipulability);
    DefaultDeriver(7, near_singularity);
    SoleDeriver(DEFAULT_KB, ids, 6, safe_clearance);
    SoleDeriver(DEFAULT_KB, ids, 5, low_manipulability);
    SoleDeriver(DEFAULT_KB, ids, 7, near_singularity);
  }

  lemma DefaultDeriver(k: nat, f: Fact)
    requires (k == 6 && f == safe_clearance) || (k == 5 && f == low_manipulability) || (k == 7 && f == near_singularity)
    ensures DeriveFact(f, true) in DEFAULT_KB[k].consequents
    ensures forall i | 0 <= i < |DEFAULT_KB| && i != k :: DeriveFact(f, true) !in DEFAULT_KB[i].consequents
  {
  }

  /** Where each input set has a positive degree. */
  lemma PositiveDegrees(x: Inputs)
    ensures var m := MembershipsOf(x);
            && (Degree(m, CollisionClearance, danger) > 0.0 <==> x.clearance < 0.01)
            && (Degree(m, CollisionClearance, near) > 0.0 <==> 0.0 < x.clearance < 0.05)
            && (Degree(m, CollisionClearance, safe) > 0.0 <==> x.clearance > 0.05)
            && (Degree(m, SingularityProximity, low) > 0.0 <==> x.singularity < 0.1)
            && (Degree(m, SingularityProximity, medium) > 0.0 <==> 0.05 < x.singularity < 0.3)
            && (Degree(m, SingularityProximity, high) > 0.0 <==> 0.2 < x.singularity <= 1.0)
            && (Degree(m, Manipulability, low) > 0.0 <==> x.manipulability < 0.3)
            && (Degree(m, Manipulability, medium) > 0.0 <==> 0.15 < x.manipulability < 0.5)
            && (Degree(m, Manipulability, high) > 0.0 <==> x.manipulability > 0.5)
  {
    forall v: LinguisticVar, k: nat | k < 3
      ensures Degree(MembershipsOf(x), v, SetsOf(v)[k].0) == Evaluate(SetsOf(v)[k].1, InputOf(x, v))
    {
      DegreeIs(x, v, k);
    }
    assert SetsOf(CollisionClearance)[0].0 == danger && SetsOf(CollisionClearance)[1].0 == near && SetsOf(CollisionClearance)[2].0 == safe;
    assert SetsOf(SingularityProximity)[0].0 == low && SetsOf(SingularityProximity)[1].0 == medium && SetsOf(SingularityProximity)[2].0 == high;
    assert SetsOf(Manipulability)[0].0 == low && SetsOf(Manipulability)[1].0 == medium && SetsOf(Manipulability)[2].0 == high;
  }

  lemma OneMetric(b: Body, m: Memberships, facts: set<Fact>)
    requires |b.antecedents| == 1 && b.antecedents[0].MetricIs?
    ensures Fireable(b, m, facts) <==> Degree(m, b.antecedents[0].variable, b.antecedents[0].setName) > 0.0
  {
  }

  /** The one antecedent of each of the first nine rules. */
  function MetricOf(i: nat): (LinguisticVar, SetName)
  {
    match i
    case 0 => (CollisionClearance, danger)
    case 1 => (CollisionClearance, near)
    case 2 => (CollisionClearance, danger)
    case 3 => (SingularityProximity, medium)
    case 4 => (Manipulability, medium)
    case 5 => (Manipulability, low)
    case 6 => (CollisionClearance, safe)
    case 7 => (SingularityProximity, high)
    case _ => (Manipulability, high)
  }

  lemma DefaultMetrics(i: nat)
    requires i < 9
    ensures Place(DEFAULT_KB[i].id) == i && DEFAULT_KB[i].antecedents == [MetricIs(MetricOf(i).0, MetricOf(i).1)]
  {
  }

  lemma PositiveMetric(x: Inputs, i: nat, id: RuleId)
    requires i < 9 && Place(id) == i
    ensures Degree(MembershipsOf(x), MetricOf(i).0, MetricOf(i).1) > 0.0 <==> Fires(id, x)
  {
    PositiveDegrees(x);
  }

  lemma FireableByMetric(x: Inputs, facts: set<Fact>, i: nat)
    requires i < 9
    ensures Fireable(BodyOf(DEFAULT_KB[i]), MembershipsOf(x), facts) <==> Fires(DEFAULT_KB[i].id, x)
  {
    DefaultMetrics(i);
    OneMetric(BodyOf(DEFAULT_KB[i]), MembershipsOf(x), facts);
    PositiveMetric(x, i, DEFAULT_KB[i].id);
  }

  lemma FireableByFacts(x: Inputs, facts: set<Fact>, i: nat)
    requires 9 <= i < |DEFAULT_KB|
    requires safe_clearance in facts <==> Fires(R08_safe_clearance, x)
    requires low_manipulability in facts <==> Fires(R07_low_manipulability, x)
    requires near_singularity in facts <==> Fires(R09_near_singularity, x)
    ensures Fireable(BodyOf(DEFAULT_KB[i]), MembershipsOf(x), facts) <==> Fires(DEFAULT_KB[i].id, x)
  {
    PositiveDegrees(x);
    var b := BodyOf(DEFAULT_KB[i]);
    if i == 9 {
      assert b.antecedents[0] == FactEquals(low_manipulability, true) && b.antecedents[1] == FactEquals(near_singularity, true);
    } else {
      assert b.antecedents[0] == FactEquals(safe_clearance, true);
      assert b.antecedents[1] == MetricIs(SingularityProximity, low) && b.antecedents[2] == MetricIs(Manipulability, high);
    }
  }

  lemma MetricFirings(report: Report, i: nat)
    requires i < 9
    ensures DEFAULT_KB[i].id in Deduction(report).fired <==> Fires(DEFAULT_KB[i].id, InputsOf(report))
  {
    DefaultFires(report, i);
    FireableByMetric(InputsOf(report), FactsAt(report), i);
  }

  lemma FactTable(report: Report)
    ensures safe_clearance in FactsAt(report) <==> Fires(R08_safe_clearance, InputsOf(report))
    ensures low_manipulability in FactsAt(report) <==> Fires(R07_low_manipulability, InputsOf(report))
    ensures near_singularity in FactsAt(report) <==> Fires(R09_near_singularity, InputsOf(report))
  {
    DefaultFacts(Deduction(report).fired);
    MetricFirings(report, 5);
    MetricFirings(report, 6);
    MetricFirings(report, 7);
    assert DEFAULT_KB[5].id == R07_low_manipulability && DEFAULT_KB[6].id == R08_safe_clearance && DEFAULT_KB[7].id == R09_near_singularity;
  }

  /** The fired set is this table, for every report. */
  lemma FiringTable(report: Report, i: nat)
    requires i < |DEFAULT_KB|
    ensures DEFAULT_KB[i].id in Deduction(report).fired <==> Fires(DEFAULT_KB[i].id, InputsOf(report))
  {
    if i < 9 {
      MetricFirings(report, i);
    } else {
      DefaultFires(report, i);
      FactTable(report);
      FireableByFacts(InputsOf(report), FactsAt(report), i);
    }
  }

  // ----- Who votes -----

  /** The default rules that vote for each risk set. */
  function VotersFor(s: RiskSet): set<nat>
  {
    match s
    case Low => {10}
    case Medium => {3, 4}
    case High => {1, 5, 7}
    case Critical => {0, 9}
  }

  lemma DefaultVoters(i: nat, s: RiskSet)
    requires i < |DEFAULT_KB|
    ensures RiskIs(s) in DEFAULT_KB[i].consequents <==> i in VotersFor(s)
  {
  }

  function VoteOf(report: Report, i: nat, s: RiskSet): Contribution
    requires i < |DEFAULT_KB|
  {
    Contribution(Activation(DEFAULT_KB[i].antecedents, MembershipsOf(InputsOf(report))), s)
  }

  lemma InDeduction(report: Report, c: Contribution)
    ensures c in Deduction(report).votes
       <==> c in Ballot(Bodies(DEFAULT_KB), MembershipsOf(InputsOf(report)), Deduction(report).fired)
  {
    DefaultIsMonotone();
    FiredIsLeastClosure(DEFAULT_KB, MembershipsOf(InputsOf(report)), MAX_ITERATIONS);
    assert c in Deduction(report).votes <==> c in multiset(Deduction(report).votes);
  }

  /** Every vote comes from a rule that fired, with a degree in (0, 1]. */
  lemma Voter(report: Report, c: Contribution) returns (i: nat)
    requires c in Deduction(report).votes
    ensures i in VotersFor(c.riskSet) && i < |DEFAULT_KB|
    ensures Fires(DEFAULT_KB[i].id, InputsOf(report)) && c == VoteOf(report, i, c.riskSet)
    ensures 0.0 < c.activation <= 1.0
  {
    var m, ids := MembershipsOf(InputsOf(report)), Deduction(report).fired;
    InDeduction(report, c);
    InBallot(Bodies(DEFAULT_KB), m, ids, c);
    var b :| b in Bodies(DEFAULT_KB) && b.id in ids && c in BodyVotes(b, m);
    i :| 0 <= i < |DEFAULT_KB| && BodyOf(DEFAULT_KB[i]) == b;
    InVotes(b.consequents, Activation(b.antecedents, m), c);
    DefaultVoters(i, c.riskSet);
    FiringTable(report, i);
    DefaultFires(report, i);
    FireableActivation(b, m, FactsAt(report));
  }

  lemma FireableActivation(b: Body, m: Memberships, facts: set<Fact>)
    requires Fireable(b, m, facts)
    ensures 0.0 < Activation(b.antecedents, m) <= 1.0
  {
    ActivationInUnit(b.antecedents, m);
  }

  /** Whether some rule that votes for a risk set fires. */
  predicate Warranted(s: RiskSet, x: Inputs)
  {
    match s
    case Low => Fires(R12_safe_plan, x)
    case Medium => Fires(R04_singularity_medium, x) || Fires(R05_manipulability_medium, x)
    case High => Fires(R02_collision_near, x) || Fires(R07_low_manipulability, x) || Fires(R09_near_singularity, x)
    case Critical => Fires(R01_collision_danger, x) || Fires(R11_compromised_manipulability, x)
  }

  lemma VotersFire(x: Inputs, s: RiskSet, i: nat)
    requires i in VotersFor(s) && i < |DEFAULT_KB| && Fires(DEFAULT_KB[i].id, x)
    ensures Warranted(s, x)
  {
  }

  /** Each vote has a positive degree, and a rule that fires for it. */
  predicate AllWarranted(votes: seq<Contribution>, x: Inputs)
  {
    forall c | c in votes :: Warranted(c.riskSet, x) && 0.0 < c.activation <= 1.0
  }

  lemma VotesAreWarranted(report: Report)
    ensures AllWarranted(Deduction(report).votes, InputsOf(report))
  {
    forall c | c in Deduction(report).votes
      ensures Warranted(c.riskSet, InputsOf(report)) && 0.0 < c.activation <= 1.0
    {
      var i := Voter(report, c);
      VotersFire(InputsOf(report), c.riskSet, i);
    }
  }

  /** Every rule that fires casts its votes. */
  lemma CastsVote(report: Report, i: nat, s: RiskSet)
    requires i in VotersFor(s) && i < |DEFAULT_KB| && Fires(DEFAULT_KB[i].id, InputsOf(report))
    ensures VoteOf(report, i, s) in Deduction(report).votes
  {
    var m, b, c := MembershipsOf(InputsOf(report)), BodyOf(DEFAULT_KB[i]), VoteOf(report, i, s);
    FiringTable(report, i);
    DefaultVoters(i, s);
    InVotes(b.consequents, Activation(b.antecedents, m), c);
    assert b in Bodies(DEFAULT_KB) && c in BodyVotes(b, m);
    InBallot(Bodies(DEFAULT_KB), m, Deduction(report).fired, c);
    InDeduction(report, c);
  }

  /** The degree with which each default rule that votes casts its vote, read off the inputs. */
  function VoteDegree(id: RuleId, x: Inputs): real
  {
    match id
    case R01_collision_danger => Evaluate(LeftShoulder(0.0, 0.01), x.clearance)
    case R02_collision_near => Evaluate(Triangular(0.0, 0.01, 0.05), x.clearance)
    case R04_singularity_medium => Evaluate(Triangular(0.05, 0.1, 0.3), x.singularity)
    case R05_manipulability_medium => Evaluate(Triangular(0.15, 0.3, 0.5), x.manipulability)
    case R07_low_manipulability => Evaluate(LeftShoulder(0.0, 0.3), x.manipulability)
    case R09_near_singularity => Evaluate(Trapezoidal(0.2, 0.3, 1.0, 1.0), x.singularity)
    case R12_safe_plan =>
      var apart, dexterous := Evaluate(LeftShoulder(0.05, 0.1), x.singularity), Evaluate(RightShoulder(0.5, 0.7), x.manipulability);
      if apart <= dexterous then apart else dexterous
    case _ => 1.0
  }

  predicate VotesWith(id: RuleId, activation: real, x: Inputs) { Fires(id, x) && activation == VoteDegree(id, x) }

  /** Which votes are cast, read off the inputs. */
  predicate Cast(c: Contribution, x: Inputs)
  {
    match c.riskSet
    case Low => VotesWith(R12_safe_plan, c.activation, x)
    case Medium => VotesWith(R04_singularity_medium, c.activation, x) || VotesWith(R05_manipulability_medium, c.activation, x)
    case High =>
      || VotesWith(R02_collision_near, c.activation, x) || VotesWith(R07_low_manipulability, c.activation, x)
      || VotesWith(R09_near_singularity, c.activation, x)
    case Critical => VotesWith(R01_collision_danger, c.activation, x) || VotesWith(R11_compromised_manipulability, c.activation, x)
  }

  /** The default rules that vote, by place. */
  function VoterAt(i: nat): RuleId
  {
    if i == 0 then R01_collision_danger else if i == 1 then R02_collision_near
    else if i == 3 then R04_singularity_medium else if i == 4 then R05_manipulability_medium
    else if i == 5 then R07_low_manipulability else if i == 7 then R09_near_singularity
    else if i == 9 then R11_compromised_manipulability else R12_safe_plan
  }

  lemma VoterIs(i: nat)
    requires i in {0, 1, 3, 4, 5, 7, 9, 10}
    ensures i < |DEFAULT_KB| && DEFAULT_KB[i].id == VoterAt(i)
  {
  }

  lemma MetricActivation(antecedents: seq<Antecedent>, m: Memberships, v: LinguisticVar, s: SetName)
    requires antecedents == [MetricIs(v, s)] && Degree(m, v, s) <= 1.0
    ensures Activation(antecedents, m) == Degree(m, v, s)
  {
    ActivationIsLeast(antecedents, m);
    assert MetricIs(v, s) in antecedents;
  }

  lemma MetricVote(x: Inputs, i: nat)
    requires i in {0, 1, 3, 4, 5, 7}
    ensures Activation(DEFAULT_KB[i].antecedents, MembershipsOf(x)) == VoteDegree(VoterAt(i), x)
  {
    DefaultMetrics(i);
    var (v, s) := MetricOf(i);
    var k := if i == 1 || i == 3 || i == 4 then 1 else if i == 7 then 2 else 0;
    DegreeIs(x, v, k);
    MetricShape(i, k);
    MetricActivation(DEFAULT_KB[i].antecedents, MembershipsOf(x), v, s);
  }

  lemma MetricShape(i: nat, k: nat)
    requires i in {0, 1, 3, 4, 5, 7} && k == if i == 1 || i == 3 || i == 4 then 1 else if i == 7 then 2 else 0
    ensures var sets := SetsOf(MetricOf(i).0);
            && k < |sets| && sets[k].0 == MetricOf(i).1
            && sets[k].1 == (match i
                             case 0 => LeftShoulder(0.0, 0.01)
                             case 1 => Triangular(0.0, 0.01, 0.05)
                             case 3 => Triangular(0.05, 0.1, 0.3)
                             case 4 => Triangular(0.15, 0.3, 0.5)
                             case 5 => LeftShoulder(0.0, 0.3)
                             case _ => Trapezoidal(0.2, 0.3, 1.0, 1.0))
  {
  }

  lemma FactVote(m: Memberships)
    ensures Activation(DEFAULT_KB[9].antecedents, m) == 1.0
  {
    ActivationIsLeast(DEFAULT_KB[9].antecedents, m);
    assert forall v, s :: MetricIs(v, s) !in DEFAULT_KB[9].antecedents;
  }

  lemma LesserOfTwo(antecedents: seq<Antecedent>, m: Memberships, f: Fact, v: LinguisticVar, s: SetName, v': LinguisticVar, s': SetName)
    requires antecedents == [FactEquals(f, true), MetricIs(v, s), MetricIs(v', s')]
    requires Degree(m, v, s) <= 1.0 && Degree(m, v', s') <= 1.0
    ensures Activation(antecedents, m) == if Degree(m, v, s) <= Degree(m, v', s') then Degree(m, v, s) else Degree(m, v', s')
  {
    ActivationIsLeast(antecedents, m);
    assert antecedents[1] in antecedents && antecedents[2] in antecedents;
  }

  lemma SafeActivation(x: Inputs)
    ensures Activation(DEFAULT_KB[10].antecedents, MembershipsOf(x)) == VoteDegree(R12_safe_plan, x)
  {
    DegreeIs(x, SingularityProximity, 0);
    DegreeIs(x, Manipulability, 2);
    assert SetsOf(SingularityProximity)[0] == (low, LeftShoulder(0.05, 0.1)) && SetsOf(Manipulability)[2] == (high, RightShoulder(0.5, 0.7));
    LesserOfTwo(DEFAULT_KB[10].antecedents, MembershipsOf(x), safe_clearance, SingularityProximity, low, Manipulability, high);
  }

  lemma DegreeOfVote(x: Inputs, i: nat)
    requires i in {0, 1, 3, 4, 5, 7, 9, 10}
    ensures Activation(DEFAULT_KB[i].antecedents, MembershipsOf(x)) == VoteDegree(VoterAt(i), x)
  {
    if i == 9 { FactVote(MembershipsOf(x)); } else if i == 10 { SafeActivation(x); } else { MetricVote(x, i); }
  }

  lemma VoterCasts(x: Inputs, c: Contribution, i: nat)
    requires i in VotersFor(c.riskSet) && VotesWith(VoterAt(i), c.activation, x)
    ensures Cast(c, x)
  {
  }

  lemma CastHasVoter(x: Inputs, c: Contribution) returns (i: nat)
    requires Cast(c, x)
    ensures i in VotersFor(c.riskSet) && VotesWith(VoterAt(i), c.activation, x)
  {
    match c.riskSet
    case Low => i := 10;
    case Medium => i := if VotesWith(VoterAt(3), c.activation, x) then 3 else 4;
    case High => i := if VotesWith(VoterAt(1), c.activation, x) then 1 else if VotesWith(VoterAt(5), c.activation, x) then 5 else 7;
    case Critical => i := if VotesWith(VoterAt(0), c.activation, x) then 0 else 9;
  }

  lemma VoteOfIs(report: Report, i: nat, s: RiskSet)
    requires i in {0, 1, 3, 4, 5, 7, 9, 10}
    ensures i < |DEFAULT_KB| && VoteOf(report, i, s) == Contribution(VoteDegree(VoterAt(i), InputsOf(report)), s)
  {
    VoterIs(i);
    DegreeOfVote(InputsOf(report), i);
  }

  lemma FiresAt(x: Inputs, i: nat)
    requires i in {0, 1, 3, 4, 5, 7, 9, 10} && i < |DEFAULT_KB|
    ensures Fires(DEFAULT_KB[i].id, x) <==> Fires(VoterAt(i), x)
  {
    VoterIs(i);
  }

  lemma VoterPlaces(s: RiskSet, i: nat)
    requires i in VotersFor(s)
    ensures i in {0, 1, 3, 4, 5, 7, 9, 10}
  {
  }

  lemma VoteHasVoter(report: Report, c: Contribution) returns (i: nat)
    requires c in Deduction(report).votes
    ensures i in VotersFor(c.riskSet) && VotesWith(VoterAt(i), c.activation, InputsOf(report))
  {
    i := Voter(report, c);
    VoterPlaces(c.riskSet, i);
    FiresAt(InputsOf(report), i);
    VoteOfIs(report, i, c.riskSet);
  }

  lemma CastIsVote(report: Report, c: Contribution, i: nat)
    requires i in VotersFor(c.riskSet) && VotesWith(VoterAt(i), c.activation, InputsOf(report))
    ensures c in Deduction(report).votes
  {
    VoterIs(i);
    FiresAt(InputsOf(report), i);
    VoteOfIs(report, i, c.riskSet);
    CastsVote(report, i, c.riskSet);
  }

  /** The votes cast are those of the rules that fire, each with the degree of its set, or the lesser degree of its
      two sets, at the inputs. */
  lemma VoteTable(report: Report, c: Contribution)
    ensures c in Deduction(report).votes <==> Cast(c, InputsOf(report))
  {
    if c in Deduction(report).votes {
      var i := VoteHasVoter(report, c);
      VoterCasts(InputsOf(report), c, i);
    }
    if Cast(c, InputsOf(report)) {
      var i := CastHasVoter(InputsOf(report), c);
      CastIsVote(report, c, i);
    }
  }

  lemma FullDanger(x: Inputs)
    requires x.clearance <= 0.0
    ensures Activation([MetricIs(CollisionClearance, danger)], MembershipsOf(x)) == 1.0
  {
    assert [MetricIs(CollisionClearance, danger)][..0] == [];
    DegreeIs(x, CollisionClearance, 0);
  }

  lemma CollisionVote(report: Report)
    requires InputsOf(report).clearance <= 0.0
    ensures Contribution(1.0, Critical) in Deduction(report).votes
  {
    assert DEFAULT_KB[0].id == R01_collision_danger && DEFAULT_KB[0].antecedents == [MetricIs(CollisionClearance, danger)];
    CastsVote(report, 0, Critical);
    FullDanger(InputsOf(report));
  }

  lemma NearVote(report: Report)
    requires InputsOf(report).clearance < 0.05
    ensures Deduction(report).votes != []
  {
    assert DEFAULT_KB[0].id == R01_collision_danger && DEFAULT_KB[1].id == R02_collision_near;
    if InputsOf(report).clearance < 0.01 { CastsVote(report, 0, Critical); } else { CastsVote(report, 1, High); }
  }

  lemma SafeVote(report: Report)
    requires Fires(R12_safe_plan, InputsOf(report))
    ensures Deduction(report).votes != []
  {
    assert DEFAULT_KB[10].id == R12_safe_plan;
    CastsVote(report, 10, Low);
  }

  // ----- The verdict -----

  function VerdictOf(report: Report): Verdict { FromCrisp(CrispOf(report)) }

  lemma CollisionVerdict(votes: seq<Contribution>, x: Inputs)
    requires AllWarranted(votes, x) && x.clearance <= 0.05 && Contribution(1.0, Critical) in votes
    ensures CrispRisk(votes) > 0.5
  {
    FullCriticalVote(votes);
  }

  lemma NearVerdict(votes: seq<Contribution>, x: Inputs)
    requires AllWarranted(votes, x) && x.clearance <= 0.05 && votes != []
    ensures FromCrisp(CrispRisk(votes)) != LowRisk
  {
    assert votes[0] in votes;
    NoLowVote(votes);
  }

  lemma CriticalVerdict(votes: seq<Contribution>, x: Inputs)
    requires AllWarranted(votes, x) && FromCrisp(CrispRisk(votes)) == CriticalRisk
    requires x.singularity == 0.0 || x.singularity == 0.15 || x.singularity == 0.5
    ensures x.clearance < 0.01 || (x.manipulability < 0.3 && x.singularity == 0.5)
  {
    if forall c | c in votes :: c.riskSet != Critical { NoCriticalVote(votes); }
  }

  lemma SingularityScale(report: Report)
    ensures InputsOf(report).singularity == 0.0 || InputsOf(report).singularity == 0.15 || InputsOf(report).singularity == 0.5
  {
  }

  lemma CleanVerdict(votes: seq<Contribution>, x: Inputs)
    requires AllWarranted(votes, x) && votes != []
    requires x.clearance > 0.05 && x.manipulability > 0.5 && x.singularity == 0.0
    ensures FromCrisp(CrispRisk(votes)) == LowRisk
  {
    LoneSignal(votes, Low);
  }

  lemma TouchingInputs(report: Report)
    requires InputsOf(report).clearance <= 0.0
    ensures VerdictOf(report) == HighRisk || VerdictOf(report) == CriticalRisk
    ensures CrispOf(report) > 0.5
  {
    CollisionVote(report);
    VotesAreWarranted(report);
    CollisionVerdict(Deduction(report).votes, InputsOf(report));
  }

  lemma NearInputs(report: Report)
    requires InputsOf(report).clearance < 0.05
    ensures VerdictOf(report) != LowRisk
  {
    NearVote(report);
    VotesAreWarranted(report);
    NearVerdict(Deduction(report).votes, InputsOf(report));
  }

  lemma CriticalInputs(report: Report)
    requires VerdictOf(report) == CriticalRisk
    ensures InputsOf(report).clearance < 0.01
         || (InputsOf(report).manipulability < 0.3 && InputsOf(report).singularity == 0.5)
  {
    VotesAreWarranted(report);
    SingularityScale(report);
    CriticalVerdict(Deduction(report).votes, InputsOf(report));
  }

  lemma CleanInputs(report: Report)
    requires InputsOf(report).clearance > 0.05 && InputsOf(report).manipulability > 0.5 && InputsOf(report).singularity == 0.0
    ensures VerdictOf(report) == LowRisk
  {
    SafeVote(report);
    VotesAreWarranted(report);
    CleanVerdict(Deduction(report).votes, InputsOf(report));
  }

  // ----- The verdict on a report -----

  /** A plan that touches an obstacle is always judged high or critical, whatever else it does well. */
  lemma CollisionIsHighOrCritical(report: Report)
    requires "min_collision_distance" in report.metrics && report.metrics["min_collision_distance"] <= 0.0
    ensures VerdictOf(report) == HighRisk || VerdictOf(report) == CriticalRisk
    ensures CrispOf(report) > 0.5
  {
    InputsRead(report);
    TouchingInputs(report);
  }

  /** A plan that comes nearer than 0.05 to an obstacle is never judged low. */
  lemma NearObstacleIsNeverLow(report: Report)
    requires "min_collision_distance" in report.metrics && report.metrics["min_collision_distance"] < 0.05
    ensures VerdictOf(report) != LowRisk
  {
    InputsRead(report);
    NearInputs(report);
  }

  /** The report gives a manipulability over 0.5, by the average or, without one, by the least. */
  predicate Dexterous(report: Report)
  {
    if "avg_manipulability" in report.metrics then report.metrics["avg_manipulability"] > 0.5
    else "min_manipulability" in report.metrics && report.metrics["min_manipulability"] > 0.5
  }

  /** The report gives a manipulability under 0.3, by the average or, without one, by the least, or gives neither. */
  predicate Clumsy(report: Report)
  {
    if "avg_manipulability" in report.metrics then report.metrics["avg_manipulability"] < 0.3
    else "min_manipulability" in report.metrics ==> report.metrics["min_manipulability"] < 0.3
  }

  /** The verdict is critical only when the plan comes nearer than 0.01 to an obstacle, or a true singularity event
      meets low manipulability. */
  lemma CriticalNeedsCause(report: Report)
    requires VerdictOf(report) == CriticalRisk
    ensures ("min_collision_distance" in report.metrics && report.metrics["min_collision_distance"] < 0.01)
         || (Clumsy(report) && Singular(report))
  {
    InputsRead(report);
    CriticalInputs(report);
  }

  /** A clear, dexterous plan without singularity events is judged low; a report without a distance counts as clear. */
  lemma CleanPlanIsLow(report: Report)
    requires "min_collision_distance" in report.metrics ==> report.metrics["min_collision_distance"] > 0.05
    requires Dexterous(report) && !Singular(report) && !NearSingular(report)
    ensures VerdictOf(report) == LowRisk
  {
    InputsRead(report);
    CleanInputs(report);
  }

  // ----- The evidence -----

  function MarkOf(id: RuleId): Option<EvidenceKey>
  {
    match id
    case R03_collision_danger_evidence => Some(collision_danger)
    case R07_low_manipulability => Some(manipulability_low)
    case R09_near_singularity => Some(singularity_high)
    case R11_compromised_manipulability => Some(critical_combination)
    case _ => None
  }

  lemma DefaultMarks(i: nat, key: EvidenceKey, amount: real)
    requires i < |DEFAULT_KB|
    ensures MarkEvidence(key, amount) in DEFAULT_KB[i].consequents <==> MarkOf(DEFAULT_KB[i].id) == Some(key) && amount == 1.0
  {
  }

  /** Some default rule among them marks the key. */
  ghost predicate Found(key: EvidenceKey, fired: set<RuleId>)
  {
    exists i :: 0 <= i < |DEFAULT_KB| && MarkOf(DEFAULT_KB[i].id) == Some(key) && DEFAULT_KB[i].id in fired
  }

  lemma OtherIsNotFound(name: string, fired: set<RuleId>)
    ensures !Found(OtherEvidence(name), fired)
  {
  }

  lemma DefaultMarkedBy(fired: set<RuleId>, key: EvidenceKey, amount: real)
    ensures MarkedBy(DEFAULT_KB, fired, key, amount)
       <==> amount == 1.0 && Found(key, fired)
  {
    if MarkedBy(DEFAULT_KB, fired, key, amount) {
      var r :| r in DEFAULT_KB && r.id in fired && MarkEvidence(key, amount) in r.consequents;
      var i :| 0 <= i < |DEFAULT_KB| && DEFAULT_KB[i] == r;
      DefaultMarks(i, key, amount);
    }
    if i :| 0 <= i < |DEFAULT_KB| && MarkOf(DEFAULT_KB[i].id) == Some(key) && DEFAULT_KB[i].id in fired && amount == 1.0 {
      DefaultMarks(i, key, amount);
      assert DEFAULT_KB[i] in DEFAULT_KB;
    }
  }

  lemma MarkIs(report: Report, key: EvidenceKey)
    ensures var marked := Deduction(report).evidence;
            && (key in marked ==> marked[key] == 1.0)
            && (key in marked <==> Found(key, Deduction(report).fired))
  {
    var w := Deduction(report);
    DefaultIsMonotone();
    RunIsEvidenced(DEFAULT_KB, MembershipsOf(InputsOf(report)), MAX_ITERATIONS);
    MarkFromRun(w, key);
  }

  lemma MarkFromRun(w: Memory, key: EvidenceKey)
    requires Evidenced(DEFAULT_KB, w)
    ensures key in w.evidence ==> w.evidence[key] == 1.0
    ensures key in w.evidence <==> Found(key, w.fired)
  {
    DefaultMarkedBy(w.fired, key, 1.0);
    if key in w.evidence { DefaultMarkedBy(w.fired, key, w.evidence[key]); }
  }

  lemma NoInputMarked(report: Report, name: string)
    ensures OtherEvidence(name) !in Deduction(report).evidence
  {
    MarkIs(report, OtherEvidence(name));
    OtherIsNotFound(name, Deduction(report).fired);
  }

  lemma InputsInEvidence(x: Inputs, marked: map<EvidenceKey, real>)
    requires forall name :: OtherEvidence(name) !in marked
    ensures var ev := EvidenceOf(x, marked);
            && OtherEvidence("manipulability") in ev && ev[OtherEvidence("manipulability")] == x.manipulability
            && OtherEvidence("singularity_proximity") in ev && ev[OtherEvidence("singularity_proximity")] == x.singularity
            && OtherEvidence("collision_clearance") in ev && ev[OtherEvidence("collision_clearance")] == x.clearance
  {
  }

  /** The evidence holds the three inputs. */
  lemma EvidenceHoldsInputs(report: Report)
    ensures var (ev, x) := (EvidenceOf(InputsOf(report), Deduction(report).evidence), InputsOf(report));
            && OtherEvidence("manipulability") in ev && ev[OtherEvidence("manipulability")] == x.manipulability
            && OtherEvidence("singularity_proximity") in ev && ev[OtherEvidence("singularity_proximity")] == x.singularity
            && OtherEvidence("collision_clearance") in ev && ev[OtherEvidence("collision_clearance")] == x.clearance
  {
    forall name ensures OtherEvidence(name) !in Deduction(report).evidence { NoInputMarked(report, name); }
    InputsInEvidence(InputsOf(report), Deduction(report).evidence);
  }

  lemma MarkPlace(id: RuleId)
    requires MarkOf(id).Some?
    ensures 0 <= Place(id) < |DEFAULT_KB| && DEFAULT_KB[Place(id)].id == id
  {
  }

  lemma FindingOf(report: Report, id: RuleId, key: EvidenceKey)
    requires MarkOf(id) == Some(key)
    ensures key in Deduction(report).evidence <==> Fires(id, InputsOf(report))
    ensures key in Deduction(report).evidence ==> Deduction(report).evidence[key] == 1.0
  {
    MarkPlace(id);
    FindingIs(report, Place(id), key);
  }

  lemma FindingInEvidence(x: Inputs, marked: map<EvidenceKey, real>, id: RuleId, key: EvidenceKey)
    requires MarkOf(id) == Some(key) && (key in marked <==> Fires(id, x)) && (key in marked ==> marked[key] == 1.0)
    ensures key in EvidenceOf(x, marked) <==> Fires(id, x)
    ensures key in EvidenceOf(x, marked) ==> EvidenceOf(x, marked)[key] == 1.0
  {
  }

  /** And it holds the finding of a default rule, with the amount 1, just when the rule fires. */
  lemma EvidenceTable(report: Report, id: RuleId, key: EvidenceKey)
    requires MarkOf(id) == Some(key)
    ensures var ev := EvidenceOf(InputsOf(report), Deduction(report).evidence);
            (key in ev <==> Fires(id, InputsOf(report))) && (key in ev ==> ev[key] == 1.0)
  {
    FindingOf(report, id, key);
    FindingInEvidence(InputsOf(report), Deduction(report).evidence, id, key);
  }

  lemma FindingIs(report: Report, i: nat, key: EvidenceKey)
    requires i < |DEFAULT_KB| && MarkOf(DEFAULT_KB[i].id) == Some(key)
    ensures key in Deduction(report).evidence <==> Fires(DEFAULT_KB[i].id, InputsOf(report))
    ensures key in Deduction(report).evidence ==> Deduction(report).evidence[key] == 1.0
  {
    MarkIs(report, key);
    FiringTable(report, i);
    if k :| 0 <= k < |DEFAULT_KB| && MarkOf(DEFAULT_KB[k].id) == Some(key) && DEFAULT_KB[k].id in Deduction(report).fired {
      MarksApart(i, k, key);
    }
  }

  lemma MarksApart(i: nat, k: nat, key: EvidenceKey)
    requires i < |DEFAULT_KB| && k < |DEFAULT_KB|
    requires MarkOf(DEFAULT_KB[i].id) == Some(key) && MarkOf(DEFAULT_KB[k].id) == Some(key)
    ensures i == k
  {
  }
}
