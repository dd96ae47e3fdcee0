/** What the inference engine computes: backend/crates/thalos-intelligence/src/engine.rs:38-143. */
module EngineProofs {
  import opened Prelude
  import opened Risk
  import opened KnowledgeBase
  import opened Engine

  // ----- Any rule base -----

  function Ids(kb: seq<Rule>): (ids: set<RuleId>) { set i | 0 <= i < |kb| :: kb[i].id }

  lemma {:induction false} IdsBound(kb: seq<Rule>)
    ensures |Ids(kb)| <= |kb|
  {
    if kb != [] {
      var before := kb[..|kb| - 1];
      IdsBound(before);
      assert Ids(kb) == Ids(before) + {kb[|kb| - 1].id};
    }
  }

  lemma {:induction false} SubsetSize<T>(small: set<T>, large: set<T>)
    requires small <= large
    ensures |small| <= |large|
    ensures |small| == |large| ==> small == large
  {
    if x :| x in small {
      SubsetSize(small - {x}, large - {x});
    }
  }

  function TraceIds(trace: seq<TraceEntry>): set<RuleId> { set i | 0 <= i < |trace| :: trace[i].id }

  /** The trace lists each fired rule once and nothing else. */
  predicate Logged(w: Memory)
  {
    && TraceIds(w.trace) == w.fired
    && forall i, j | 0 <= i < j < |w.trace| :: w.trace[i].id != w.trace[j].id
  }

  lemma {:induction false} ApplyAllLogsNothing(w: Memory, derived: map<Fact, bool>, cs: seq<Consequent>, activation: real)
    ensures var (applied, d) := ApplyAll(w, derived, cs, activation); applied.fired == w.fired && applied.trace == w.trace
  {
    if cs != [] { ApplyAllLogsNothing(w, derived, cs[..|cs| - 1], activation); }
  }

  lemma VisitLogs(w: Memory, r: Rule, m: Memberships)
    requires Logged(w)
    ensures Logged(Visit(w, r, m)) && w.fired <= Visit(w, r, m).fired <= w.fired + {r.id}
    ensures Visit(w, r, m).fired == w.fired ==> Visit(w, r, m) == w && (r.id in w.fired || !Enabled(r, m, w.facts))
  {
    var next := Visit(w, r, m);
    if next != w {
      var (applied, derived) := ApplyAll(w, map[], r.consequents, Activation(r.antecedents, m));
      ApplyAllLogsNothing(w, map[], r.consequents, Activation(r.antecedents, m));
      var entry := EntryOf(r, m, w.facts, derived);
      assert next.trace == w.trace + [entry];
      assert TraceIds(next.trace) == TraceIds(w.trace) + {entry.id} by {
        assert next.trace[|w.trace|] == entry;
        assert forall i | 0 <= i < |w.trace| :: next.trace[i] == w.trace[i];
      }
      assert forall i | 0 <= i < |w.trace| :: w.trace[i].id in TraceIds(w.trace);
    }
  }

  lemma {:induction false} PassLogs(agenda: seq<Rule>, w: Memory, m: Memberships)
    requires Logged(w)
    ensures var next := Pass(agenda, w, m); Logged(next) && w.fired <= next.fired <= w.fired + Ids(agenda)
    ensures Pass(agenda, w, m).fired == w.fired
        ==> Pass(agenda, w, m) == w && forall r | r in agenda :: r.id in w.fired || !Enabled(r, m, w.facts)
  {
    if agenda != [] {
      var before, last := agenda[..|agenda| - 1], agenda[|agenda| - 1];
      PassLogs(before, w, m);
      VisitLogs(Pass(before, w, m), last, m);
      assert agenda == before + [last];
      assert Ids(agenda) == Ids(before) + {last.id};
    }
  }

  /** A run fires each rule at most once, and the trace is the firing order. */
  lemma {:induction false} ChainLogs(agenda: seq<Rule>, w: Memory, m: Memberships, cap: nat)
    requires Logged(w) && w.fired <= Ids(agenda)
    ensures var end := Chain(agenda, w, m, cap); Logged(end) && w.fired <= end.fired <= Ids(agenda)
    decreases cap
  {
    if cap > 0 {
      PassLogs(agenda, w, m);
      if Pass(agenda, w, m).fired != w.fired { ChainLogs(agenda, Pass(agenda, w, m), m, cap - 1); }
    }
  }

  /** No rule can still fire. */
  predicate Quiet(kb: seq<Rule>, m: Memberships, w: Memory)
  {
    forall r | r in kb :: r.id in w.fired || !Enabled(r, m, w.facts)
  }

  /** Every productive pass fires a new rule, so as many passes as there are rules reach quiescence. */
  lemma {:induction false} ChainGoesQuiet(agenda: seq<Rule>, w: Memory, m: Memberships, cap: nat)
    requires Logged(w) && w.fired <= Ids(agenda) && |w.fired| + cap >= |agenda|
    ensures Quiet(agenda, m, Chain(agenda, w, m, cap))
    decreases cap
  {
    IdsBound(agenda);
    if cap == 0 {
      SubsetSize(w.fired, Ids(agenda));
      assert forall r | r in agenda :: r.id in Ids(agenda);
    } else {
      var next := Pass(agenda, w, m);
      PassLogs(agenda, w, m);
      if next.fired != w.fired {
        SubsetSize(w.fired, next.fired);
        ChainGoesQuiet(agenda, next, m, cap - 1);
      }
    }
  }

  /** For any rule base: a run that is given as many passes as there are rules ends because nothing
      more can fire, having fired each rule at most once. */
  lemma RunReachesQuiescence(kb: seq<Rule>, m: Memberships, cap: nat)
    requires cap >= |kb|
    ensures Quiet(kb, m, Inferred(kb, m, cap)) && Logged(Inferred(kb, m, cap))
  {
    AgendaSameRules(kb);
    ChainLogs(Agenda(kb), BLANK, m, cap);
    ChainGoesQuiet(Agenda(kb), BLANK, m, cap);
  }

  // ----- Evidence -----

  /** Some fired rule marks the evidence with the amount. */
  predicate MarkedBy(kb: seq<Rule>, fired: set<RuleId>, key: EvidenceKey, amount: real)
  {
    exists r :: r in kb && r.id in fired && MarkEvidence(key, amount) in r.consequents
  }

  /** The evidence is what the fired rules mark: each amount is one of theirs, and none of their keys is missing. */
  ghost predicate Evidenced(kb: seq<Rule>, w: Memory)
  {
    && (forall key | key in w.evidence :: MarkedBy(kb, w.fired, key, w.evidence[key]))
    && (forall key, amount | MarkedBy(kb, w.fired, key, amount) :: key in w.evidence)
  }

  lemma {:induction false} EvidenceApplied(w: Memory, derived: map<Fact, bool>, cs: seq<Consequent>, activation: real, key: EvidenceKey)
    ensures var after := ApplyAll(w, derived, cs, activation).0.evidence;
            && (key in after <==> key in w.evidence || exists amount :: MarkEvidence(key, amount) in cs)
            && (key in after ==> MarkEvidence(key, after[key]) in cs || (key in w.evidence && after[key] == w.evidence[key]))
  {
    if cs != [] {
      EvidenceApplied(w, derived, cs[..|cs| - 1], activation, key);
      assert cs == cs[..|cs| - 1] + [cs[|cs| - 1]];
    }
  }

  lemma VisitEvidences(kb: seq<Rule>, w: Memory, r: Rule, m: Memberships)
    requires UniqueIds(kb) && r in kb && Evidenced(kb, w)
    ensures Evidenced(kb, Visit(w, r, m))
  {
    var next := Visit(w, r, m);
    if next != w {
      var activation := Activation(r.antecedents, m);
      ApplyAllLogsNothing(w, map[], r.consequents, activation);
      forall key | key in next.evidence ensures MarkedBy(kb, next.fired, key, next.evidence[key]) {
        EvidenceApplied(w, map[], r.consequents, activation, key);
        if MarkEvidence(key, next.evidence[key]) !in r.consequents {
          var q :| q in kb && q.id in w.fired && MarkEvidence(key, w.evidence[key]) in q.consequents;
        }
      }
      forall key, amount | MarkedBy(kb, next.fired, key, amount) ensures key in next.evidence {
        EvidenceApplied(w, map[], r.consequents, activation, key);
        var q :| q in kb && q.id in next.fired && MarkEvidence(key, amount) in q.consequents;
        if q.id in w.fired { assert MarkedBy(kb, w.fired, key, amount); } else { SameRule(kb, q, r); }
      }
    }
  }

  lemma SameRule(kb: seq<Rule>, q: Rule, r: Rule)
    requires UniqueIds(kb) && q in kb && r in kb && q.id == r.id
    ensures q == r
  {
  }

  lemma {:induction false} PassEvidences(kb: seq<Rule>, agenda: seq<Rule>, w: Memory, m: Memberships)
    requires UniqueIds(kb) && Evidenced(kb, w) && forall r | r in agenda :: r in kb
    ensures Evidenced(kb, Pass(agenda, w, m))
  {
    if agenda != [] {
      PassEvidences(kb, agenda[..|agenda| - 1], w, m);
      VisitEvidences(kb, Pass(agenda[..|agenda| - 1], w, m), agenda[|agenda| - 1], m);
    }
  }

  lemma {:induction false} ChainEvidences(kb: seq<Rule>, agenda: seq<Rule>, w: Memory, m: Memberships, cap: nat)
    requires UniqueIds(kb) && Evidenced(kb, w) && forall r | r in agenda :: r in kb
    ensures Evidenced(kb, Chain(agenda, w, m, cap))
    decreases cap
  {
    if cap > 0 {
      PassEvidences(kb, agenda, w, m);
      if Pass(agenda, w, m).fired != w.fired { ChainEvidences(kb, agenda, Pass(agenda, w, m), m, cap - 1); }
    }
  }

  /** Whatever the rule base, the evidence of a run is what its fired rules mark. */
  lemma RunIsEvidenced(kb: seq<Rule>, m: Memberships, cap: nat)
    requires UniqueIds(kb)
    ensures Evidenced(kb, Inferred(kb, m, cap))
  {
    AgendaKeeps(kb);
    assert forall r | r in Agenda(kb) :: r in multiset(Agenda(kb));
    ChainEvidences(kb, Agenda(kb), BLANK, m, cap);
  }

  // ----- The trace as an account of the run -----

  /** An entry shows a rule of the base whose antecedents all hold on what the entry binds them to. */
  predicate ShownBy(kb: seq<Rule>, m: Memberships, e: TraceEntry)
  {
    exists r :: r in kb && r.id == e.id && r.priority == e.priority && HoldsOn(r.antecedents, m, e.bindings)
  }

  predicate HoldsOn(antecedents: seq<Antecedent>, m: Memberships, b: Bindings)
  {
    forall i | 0 <= i < |antecedents| :: BoundTo(antecedents[i], m, b)
  }

  predicate BoundTo(a: Antecedent, m: Memberships, b: Bindings)
  {
    match a
    case MetricIs(variable, setName) =>
      (variable, setName) in b.degrees && b.degrees[(variable, setName)] == Degree(m, variable, setName) > 0.0
    case FactEquals(fact, value) => fact in b.truths && b.truths[fact] == value
  }

  predicate Derives(trace: seq<TraceEntry>, fact: Fact)
  {
    exists j :: 0 <= j < |trace| && Known(trace[j].derived, fact)
  }

  /** Every entry shows a rule that held, and each fact it binds to true was derived by an earlier entry. */
  ghost predicate Accounted(kb: seq<Rule>, m: Memberships, w: Memory)
  {
    && (forall i | 0 <= i < |w.trace| :: ShownBy(kb, m, w.trace[i]))
    && (forall i, fact | 0 <= i < |w.trace| && Known(w.trace[i].bindings.truths, fact) :: Derives(w.trace[..i], fact))
    && (forall fact | Known(w.facts, fact) :: Derives(w.trace, fact))
  }

  lemma {:induction false} FactsMerge(w: Memory, cs: seq<Consequent>, activation: real)
    ensures var (applied, derived) := ApplyAll(w, map[], cs, activation); applied.facts == w.facts + derived
  {
    if cs != [] { FactsMerge(w, cs[..|cs| - 1], activation); }
  }

  lemma EnabledIsShown(kb: seq<Rule>, r: Rule, m: Memberships, facts: map<Fact, bool>, derived: map<Fact, bool>)
    requires r in kb && Enabled(r, m, facts)
    ensures ShownBy(kb, m, EntryOf(r, m, facts, derived))
  {
    var e := EntryOf(r, m, facts, derived);
    BoundIs(r.antecedents, m, facts);
    forall i | 0 <= i < |r.antecedents| ensures BoundTo(r.antecedents[i], m, e.bindings) {
      assert Satisfied(r.antecedents[i], m, facts) && r.antecedents[i] in r.antecedents;
    }
  }

  lemma VisitAccounts(kb: seq<Rule>, w: Memory, r: Rule, m: Memberships)
    requires r in kb && Accounted(kb, m, w)
    ensures Accounted(kb, m, Visit(w, r, m))
  {
    var next := Visit(w, r, m);
    if next != w {
      var activation := Activation(r.antecedents, m);
      var (applied, derived) := ApplyAll(w, map[], r.consequents, activation);
      var e := EntryOf(r, m, w.facts, derived);
      ApplyAllLogsNothing(w, map[], r.consequents, activation);
      FactsMerge(w, r.consequents, activation);
      EnabledIsShown(kb, r, m, w.facts, derived);
      BoundIs(r.antecedents, m, w.facts);
      Extends(kb, m, w, e, next);
    }
  }

  lemma Extends(kb: seq<Rule>, m: Memberships, w: Memory, e: TraceEntry, next: Memory)
    requires Accounted(kb, m, w) && ShownBy(kb, m, e)
    requires next.trace == w.trace + [e] && next.facts == w.facts + e.derived
    requires forall fact | Known(e.bindings.truths, fact) :: Known(w.facts, fact)
    ensures Accounted(kb, m, next)
  {
    var n := |w.trace|;
    assert next.trace[..n] == w.trace && next.trace[n] == e;
    forall i, fact | 0 <= i < n && Known(next.trace[i].bindings.truths, fact)
      ensures Derives(next.trace[..i], fact)
    {
      assert next.trace[..i] == w.trace[..i] && next.trace[i] == w.trace[i];
    }
    forall fact | Known(next.facts, fact)
      ensures Derives(next.trace, fact)
    {
      if !Known(e.derived, fact) {
        assert Known(w.facts, fact);
        var j :| 0 <= j < n && Known(w.trace[j].derived, fact);
        assert next.trace[j] == w.trace[j];
      }
    }
  }

  lemma {:induction false} PassAccounts(kb: seq<Rule>, agenda: seq<Rule>, w: Memory, m: Memberships)
    requires Accounted(kb, m, w) && forall r | r in agenda :: r in kb
    ensures Accounted(kb, m, Pass(agenda, w, m))
  {
    if agenda != [] {
      PassAccounts(kb, agenda[..|agenda| - 1], w, m);
      VisitAccounts(kb, Pass(agenda[..|agenda| - 1], w, m), agenda[|agenda| - 1], m);
    }
  }

  lemma {:induction false} ChainAccounts(kb: seq<Rule>, agenda: seq<Rule>, w: Memory, m: Memberships, cap: nat)
    requires Accounted(kb, m, w) && forall r | r in agenda :: r in kb
    ensures Accounted(kb, m, Chain(agenda, w, m, cap))
    decreases cap
  {
    if cap > 0 {
      PassAccounts(kb, agenda, w, m);
      if Pass(agenda, w, m).fired != w.fired { ChainAccounts(kb, agenda, Pass(agenda, w, m), m, cap - 1); }
    }
  }

  /** Whatever the rule base, the trace accounts for the run: each entry shows a rule whose antecedents held,
      and every fact it relied on, and every fact that is true at the end, goes back to an entry. */
  lemma TraceAccounts(kb: seq<Rule>, m: Memberships, cap: nat)
    ensures Accounted(kb, m, Inferred(kb, m, cap))
  {
    AgendaKeeps(kb);
    assert forall r | r in Agenda(kb) :: r in multiset(Agenda(kb));
    ChainAccounts(kb, Agenda(kb), BLANK, m, cap);
  }

  // ----- Rule bases without a denial that matters -----

  /** What a rule says, apart from its place and its priority. */
  datatype Body = Body(id: RuleId, antecedents: seq<Antecedent>, consequents: seq<Consequent>)

  function BodyOf(r: Rule): Body { Body(r.id, r.antecedents, r.consequents) }

  function Bodies(kb: seq<Rule>): (bodies: set<Body>)
  {
    set i | 0 <= i < |kb| :: BodyOf(kb[i])
  }

  /** Some rule derives the fact as true. */
  ghost predicate Granted(bodies: set<Body>, f: Fact)
  {
    exists b :: b in bodies && DeriveFact(f, true) in b.consequents
  }

  /** A rule asks or derives a fact to be false only where no rule derives it as true. */
  ghost predicate Agrees(bodies: set<Body>, b: Body)
  {
    forall f | FactEquals(f, false) in b.antecedents || DeriveFact(f, false) in b.consequents :: !Granted(bodies, f)
  }

  ghost predicate Monotone(kb: seq<Rule>) { UniqueIds(kb) && forall r | r in kb :: Agrees(Bodies(kb), BodyOf(r)) }

  /** Ids name bodies, and no body denies a fact that another grants. */
  ghost predicate Monotonic(bodies: set<Body>)
  {
    && (forall b, b' | b in bodies && b' in bodies :: b.id == b'.id ==> b == b')
    && (forall b | b in bodies :: Agrees(bodies, b))
  }

  /** A rule that never denies a fact. */
  predicate Asserting(b: Body)
  {
    && (forall a | a in b.antecedents :: a.FactEquals? ==> a.value)
    && (forall c | c in b.consequents :: c.DeriveFact? ==> c.value)
  }

  lemma AssertingIsMonotone(kb: seq<Rule>)
    requires UniqueIds(kb) && forall r | r in kb :: Asserting(BodyOf(r))
    ensures Monotone(kb)
  {
  }

  /** The facts that consequents derive with a value. */
  function DerivedBy(cs: seq<Consequent>, value: bool): (facts: set<Fact>)
  {
    if cs == [] then {}
    else
      var last := cs[|cs| - 1];
      DerivedBy(cs[..|cs| - 1], value) + if last.DeriveFact? && last.value == value then {last.fact} else {}
  }

  /** The facts a set of rules derives with a value. */
  ghost function FactsOf(bodies: set<Body>, ids: set<RuleId>, value: bool): set<Fact>
  {
    set b, f | b in bodies && b.id in ids && f in DerivedBy(b.consequents, value) :: f
  }

  predicate Fireable(b: Body, m: Memberships, facts: set<Fact>)
  {
    forall i | 0 <= i < |b.antecedents| ::
      match b.antecedents[i]
      case MetricIs(variable, setName) => Degree(m, variable, setName) > 0.0
      case FactEquals(fact, value) => value ==> fact in facts
  }

  /** Closed under the rules. */
  ghost predicate Closed(bodies: set<Body>, m: Memberships, ids: set<RuleId>)
  {
    forall b | b in bodies && Fireable(b, m, FactsOf(bodies, ids, true)) :: b.id in ids
  }

  /** Inside every closed set. */
  ghost predicate BelowClosed(bodies: set<Body>, m: Memberships, ids: set<RuleId>)
  {
    forall closed: set<RuleId> | Closed(bodies, m, closed) :: ids <= closed
  }

  /** Each fired rule has its antecedents among the facts of the fired rules. */
  ghost predicate Supported(bodies: set<Body>, m: Memberships, ids: set<RuleId>)
  {
    forall b | b in bodies && b.id in ids :: Fireable(b, m, FactsOf(bodies, ids, true))
  }

  function VotesOf(cs: seq<Consequent>, activation: real): multiset<Contribution>
  {
    if cs == [] then multiset{}
    else
      var last := cs[|cs| - 1];
      VotesOf(cs[..|cs| - 1], activation) + if last.RiskIs? then multiset{Contribution(activation, last.riskSet)} else multiset{}
  }

  function BodyVotes(b: Body, m: Memberships): multiset<Contribution> { VotesOf(b.consequents, Activation(b.antecedents, m)) }

  /** The votes of the fired rules, in no order. */
  ghost function Ballot(bodies: set<Body>, m: Memberships, ids: set<RuleId>): multiset<Contribution>
  {
    if bodies == {} then multiset{}
    else
      var b :| b in bodies;
      Ballot(bodies - {b}, m, ids) + if b.id in ids then BodyVotes(b, m) else multiset{}
  }

  lemma {:induction false} BallotTakes(bodies: set<Body>, m: Memberships, ids: set<RuleId>, b: Body)
    requires b in bodies
    ensures Ballot(bodies, m, ids) == Ballot(bodies - {b}, m, ids) + if b.id in ids then BodyVotes(b, m) else multiset{}
  {
    var first :| first in bodies
      && Ballot(bodies, m, ids) == Ballot(bodies - {first}, m, ids) + if first.id in ids then BodyVotes(first, m) else multiset{};
    if first != b {
      BallotTakes(bodies - {first}, m, ids, b);
      BallotTakes(bodies - {b}, m, ids, first);
      assert bodies - {first} - {b} == bodies - {b} - {first};
    }
  }

  lemma {:induction false} BallotWithout(bodies: set<Body>, m: Memberships, ids: set<RuleId>, id: RuleId)
    requires forall b | b in bodies :: b.id != id
    ensures Ballot(bodies, m, ids + {id}) == Ballot(bodies, m, ids)
  {
    if b :| b in bodies {
      BallotTakes(bodies, m, ids, b);
      BallotTakes(bodies, m, ids + {id}, b);
      BallotWithout(bodies - {b}, m, ids, id);
    }
  }

  lemma BallotGrows(bodies: set<Body>, m: Memberships, ids: set<RuleId>, b: Body)
    requires Monotonic(bodies) && b in bodies && b.id !in ids
    ensures Ballot(bodies, m, ids + {b.id}) == Ballot(bodies, m, ids) + BodyVotes(b, m)
  {
    BallotTakes(bodies, m, ids, b);
    BallotTakes(bodies, m, ids + {b.id}, b);
    BallotWithout(bodies - {b}, m, ids, b.id);
  }

  lemma {:induction false} NoBallot(bodies: set<Body>, m: Memberships)
    ensures Ballot(bodies, m, {}) == multiset{}
  {
    if b :| b in bodies {
      BallotTakes(bodies, m, {}, b);
      NoBallot(bodies - {b}, m);
    }
  }

  lemma {:induction false} InVotes(cs: seq<Consequent>, activation: real, c: Contribution)
    ensures c in VotesOf(cs, activation) <==> c.activation == activation && RiskIs(c.riskSet) in cs
  {
    if cs != [] {
      InVotes(cs[..|cs| - 1], activation, c);
      assert cs == cs[..|cs| - 1] + [cs[|cs| - 1]];
    }
  }

  lemma {:induction false} InBallot(bodies: set<Body>, m: Memberships, ids: set<RuleId>, c: Contribution)
    ensures c in Ballot(bodies, m, ids) <==> exists b :: b in bodies && b.id in ids && c in BodyVotes(b, m)
  {
    if b :| b in bodies {
      BallotTakes(bodies, m, ids, b);
      InBallot(bodies - {b}, m, ids, c);
    }
  }

  lemma {:induction false} InDerived(cs: seq<Consequent>, f: Fact, value: bool)
    ensures f in DerivedBy(cs, value) <==> DeriveFact(f, value) in cs
  {
    if cs != [] {
      InDerived(cs[..|cs| - 1], f, value);
      assert cs == cs[..|cs| - 1] + [cs[|cs| - 1]];
    }
  }

  lemma FactsWith(bodies: set<Body>, ids: set<RuleId>, b: Body, value: bool)
    requires Monotonic(bodies) && b in bodies
    ensures FactsOf(bodies, ids + {b.id}, value) == FactsOf(bodies, ids, value) + DerivedBy(b.consequents, value)
  {
  }

  lemma NotGranted(bodies: set<Body>, ids: set<RuleId>, f: Fact)
    requires !Granted(bodies, f)
    ensures f !in FactsOf(bodies, ids, true)
  {
    if f in FactsOf(bodies, ids, true) {
      var b :| b in bodies && b.id in ids && f in DerivedBy(b.consequents, true);
      InDerived(b.consequents, f, true);
    }
  }

  function FactMap(trues: set<Fact>, falses: set<Fact>): map<Fact, bool> { map f | f in trues + falses :: f in trues }

  /** The consequents deny only facts that are neither known as true nor granted by themselves. */
  ghost predicate Free(cs: seq<Consequent>, trues: set<Fact>)
  {
    forall f | DeriveFact(f, false) in cs :: f !in trues && DeriveFact(f, true) !in cs
  }

  lemma {:induction false} FactsApplied(w: Memory, derived: map<Fact, bool>, cs: seq<Consequent>, activation: real,
                                        trues: set<Fact>, falses: set<Fact>)
    requires w.facts == FactMap(trues, falses) && Free(cs, trues)
    ensures ApplyAll(w, derived, cs, activation).0.facts
         == FactMap(trues + DerivedBy(cs, true), falses + DerivedBy(cs, false))
  {
    if cs == [] {
      assert trues + DerivedBy(cs, true) == trues && falses + DerivedBy(cs, false) == falses;
    } else {
      var front, last := cs[..|cs| - 1], cs[|cs| - 1];
      FrontIsFree(cs, trues);
      FactsApplied(w, derived, front, activation, trues, falses);
      FactApplied(trues + DerivedBy(front, true), falses + DerivedBy(front, false), last);
      FactsAdded(trues, cs, true);
      FactsAdded(falses, cs, false);
    }
  }

  lemma FrontIsFree(cs: seq<Consequent>, trues: set<Fact>)
    requires cs != [] && Free(cs, trues)
    ensures var (front, last) := (cs[..|cs| - 1], cs[|cs| - 1]);
            Free(front, trues) && (last.DeriveFact? && !last.value ==> last.fact !in trues + DerivedBy(front, true))
  {
    var front, last := cs[..|cs| - 1], cs[|cs| - 1];
    assert forall c | c in front :: c in cs;
    assert last in cs;
    if last.DeriveFact? && !last.value {
      assert last == DeriveFact(last.fact, false);
      InDerived(front, last.fact, true);
    }
  }

  lemma FactsAdded(facts: set<Fact>, cs: seq<Consequent>, value: bool)
    requires cs != []
    ensures facts + DerivedBy(cs, value) == facts + DerivedBy(cs[..|cs| - 1], value) + FactIf(cs[|cs| - 1], value)
  {
  }

  function FactIf(c: Consequent, value: bool): set<Fact> { if c.DeriveFact? && c.value == value then {c.fact} else {} }

  lemma FactApplied(trues: set<Fact>, falses: set<Fact>, c: Consequent)
    requires c.DeriveFact? && !c.value ==> c.fact !in trues
    ensures (if c.DeriveFact? then FactMap(trues, falses)[c.fact := c.value] else FactMap(trues, falses))
         == FactMap(trues + FactIf(c, true), falses + FactIf(c, false))
  {
    assert trues + {} == trues && falses + {} == falses;
  }

  lemma {:induction false} VotesApplied(w: Memory, derived: map<Fact, bool>, cs: seq<Consequent>, activation: real)
    ensures multiset(ApplyAll(w, derived, cs, activation).0.votes) == multiset(w.votes) + VotesOf(cs, activation)
  {
    if cs != [] { VotesApplied(w, derived, cs[..|cs| - 1], activation); }
  }

  lemma EnabledIsFireable(r: Rule, m: Memberships, trues: set<Fact>, falses: set<Fact>)
    requires forall f | FactEquals(f, false) in r.antecedents :: f !in trues
    ensures Enabled(r, m, FactMap(trues, falses)) <==> Fireable(BodyOf(r), m, trues)
  {
    forall i | 0 <= i < |r.antecedents|
      ensures r.antecedents[i].FactEquals? ==>
                (Known(FactMap(trues, falses), r.antecedents[i].fact) <==> r.antecedents[i].fact in trues)
      ensures r.antecedents[i].FactEquals? && !r.antecedents[i].value ==> r.antecedents[i].fact !in trues
    {
      assert r.antecedents[i] in r.antecedents;
    }
  }

  /** What a run keeps: it has fired only rules that every closed set contains and that its facts
      support; the facts and the votes are those of the fired rules. */
  ghost predicate Justified(bodies: set<Body>, m: Memberships, w: Memory)
  {
    && w.facts == FactMap(FactsOf(bodies, w.fired, true), FactsOf(bodies, w.fired, false))
    && BelowClosed(bodies, m, w.fired)
    && Supported(bodies, m, w.fired)
    && multiset(w.votes) == Ballot(bodies, m, w.fired)
  }

  lemma FiringStaysBelow(bodies: set<Body>, m: Memberships, ids: set<RuleId>, b: Body)
    requires BelowClosed(bodies, m, ids) && b in bodies && Fireable(b, m, FactsOf(bodies, ids, true))
    ensures BelowClosed(bodies, m, ids + {b.id})
  {
  }

  lemma FiringStaysSupported(bodies: set<Body>, m: Memberships, ids: set<RuleId>, b: Body)
    requires Monotonic(bodies) && Supported(bodies, m, ids) && b in bodies && Fireable(b, m, FactsOf(bodies, ids, true))
    ensures Supported(bodies, m, ids + {b.id})
  {
  }

  /** What a rule may deny, no fired rule has granted. */
  lemma DenialsAreFree(bodies: set<Body>, ids: set<RuleId>, b: Body)
    requires Monotonic(bodies) && b in bodies
    ensures forall f | FactEquals(f, false) in b.antecedents || DeriveFact(f, false) in b.consequents ::
              f !in FactsOf(bodies, ids, true) && DeriveFact(f, true) !in b.consequents
  {
    forall f | FactEquals(f, false) in b.antecedents || DeriveFact(f, false) in b.consequents
      ensures f !in FactsOf(bodies, ids, true) && DeriveFact(f, true) !in b.consequents
    {
      NotGranted(bodies, ids, f);
    }
  }

  lemma FiringKeepsFacts(bodies: set<Body>, w: Memory, r: Rule, activation: real)
    requires Monotonic(bodies) && BodyOf(r) in bodies
    requires w.facts == FactMap(FactsOf(bodies, w.fired, true), FactsOf(bodies, w.fired, false))
    ensures var ids := w.fired + {r.id};
            ApplyAll(w, map[], r.consequents, activation).0.facts == FactMap(FactsOf(bodies, ids, true), FactsOf(bodies, ids, false))
  {
    DenialsAreFree(bodies, w.fired, BodyOf(r));
    FactsApplied(w, map[], r.consequents, activation, FactsOf(bodies, w.fired, true), FactsOf(bodies, w.fired, false));
    FactsWith(bodies, w.fired, BodyOf(r), true);
    FactsWith(bodies, w.fired, BodyOf(r), false);
  }

  lemma VisitIsJustified(bodies: set<Body>, m: Memberships, w: Memory, r: Rule)
    requires Monotonic(bodies) && BodyOf(r) in bodies && Justified(bodies, m, w)
    ensures Justified(bodies, m, Visit(w, r, m))
  {
    var b := BodyOf(r);
    DenialsAreFree(bodies, w.fired, b);
    EnabledIsFireable(r, m, FactsOf(bodies, w.fired, true), FactsOf(bodies, w.fired, false));
    if r.id !in w.fired && Enabled(r, m, w.facts) {
      var activation := Activation(r.antecedents, m);
      FiringKeepsFacts(bodies, w, r, activation);
      VotesApplied(w, map[], r.consequents, activation);
      BallotGrows(bodies, m, w.fired, b);
      FiringStaysBelow(bodies, m, w.fired, b);
      FiringStaysSupported(bodies, m, w.fired, b);
    }
  }

  lemma {:induction false} PassIsJustified(bodies: set<Body>, agenda: seq<Rule>, m: Memberships, w: Memory)
    requires Monotonic(bodies) && Bodies(agenda) <= bodies && Justified(bodies, m, w)
    ensures Justified(bodies, m, Pass(agenda, w, m))
  {
    if agenda != [] {
      var before, last := agenda[..|agenda| - 1], agenda[|agenda| - 1];
      assert Bodies(agenda) == Bodies(before) + {BodyOf(last)};
      PassIsJustified(bodies, before, m, w);
      VisitIsJustified(bodies, m, Pass(before, w, m), last);
    }
  }

  lemma {:induction false} ChainIsJustified(bodies: set<Body>, agenda: seq<Rule>, m: Memberships, w: Memory, cap: nat)
    requires Monotonic(bodies) && Bodies(agenda) <= bodies && Justified(bodies, m, w)
    ensures Justified(bodies, m, Chain(agenda, w, m, cap))
    decreases cap
  {
    if cap > 0 {
      PassIsJustified(bodies, agenda, m, w);
      if Pass(agenda, w, m).fired != w.fired { ChainIsJustified(bodies, agenda, m, Pass(agenda, w, m), cap - 1); }
    }
  }

  lemma BodiesAreMonotonic(kb: seq<Rule>)
    requires Monotone(kb)
    ensures Monotonic(Bodies(kb)) && Bodies(Agenda(kb)) == Bodies(kb)
  {
    AgendaSameRules(kb);
    assert forall r :: r in kb <==> r in Agenda(kb);
    assert forall i | 0 <= i < |kb| :: kb[i] in Agenda(kb);
    assert forall i | 0 <= i < |Agenda(kb)| :: Agenda(kb)[i] in kb;
  }

  /** The fired set is the least set closed under the rules: it lies inside every closed set, and
      holds exactly the rules that the facts they derive together support. */
  lemma FiredIsLeastClosure(kb: seq<Rule>, m: Memberships, cap: nat)
    requires Monotone(kb) && cap >= |kb|
    ensures var (w, bodies) := (Inferred(kb, m, cap), Bodies(kb));
            && w.fired <= Ids(kb)
            && w.facts == FactMap(FactsOf(bodies, w.fired, true), FactsOf(bodies, w.fired, false))
            && multiset(w.votes) == Ballot(bodies, m, w.fired)
            && Closed(bodies, m, w.fired) && BelowClosed(bodies, m, w.fired) && Supported(bodies, m, w.fired)
  {
    var w, bodies := Inferred(kb, m, cap), Bodies(kb);
    BodiesAreMonotonic(kb);
    NoBallot(bodies, m);
    assert FactsOf(bodies, {}, true) == FactsOf(bodies, {}, false) == {};
    ChainIsJustified(bodies, Agenda(kb), m, BLANK, cap);
    RunReachesQuiescence(kb, m, cap);
    forall b | b in bodies && Fireable(b, m, FactsOf(bodies, w.fired, true))
      ensures b.id in w.fired
    {
      var i :| 0 <= i < |kb| && b == BodyOf(kb[i]);
      DenialsAreFree(bodies, w.fired, b);
      EnabledIsFireable(kb[i], m, FactsOf(bodies, w.fired, true), FactsOf(bodies, w.fired, false));
      assert kb[i] in kb;
    }
  }

  /** A fact that only one rule derives holds just when that rule fired. */
  lemma SoleDeriver(kb: seq<Rule>, ids: set<RuleId>, k: nat, f: Fact)
    requires k < |kb| && DeriveFact(f, true) in kb[k].consequents
    requires forall i | 0 <= i < |kb| && i != k :: DeriveFact(f, true) !in kb[i].consequents
    ensures f in FactsOf(Bodies(kb), ids, true) <==> kb[k].id in ids
  {
    InDerived(kb[k].consequents, f, true);
    assert BodyOf(kb[k]) in Bodies(kb);
    if f in FactsOf(Bodies(kb), ids, true) {
      var b :| b in Bodies(kb) && b.id in ids && f in DerivedBy(b.consequents, true);
      InDerived(b.consequents, f, true);
      var i :| 0 <= i < |kb| && BodyOf(kb[i]) == b;
      assert i == k;
    }
  }

  /** The activation of a rule that can fire is a positive degree. */
  lemma {:induction false} ActivationInUnit(antecedents: seq<Antecedent>, m: Memberships)
    requires forall a | a in antecedents && a.MetricIs? :: Degree(m, a.variable, a.setName) > 0.0
    ensures 0.0 < Activation(antecedents, m) <= 1.0
  {
    if antecedents != [] { ActivationInUnit(antecedents[..|antecedents| - 1], m); }
  }

  // ----- Confluence -----

  /** The crisp risk depends on which votes were cast, not on their order or number. */
  lemma SameVotesSameRisk(cs: seq<Contribution>, ds: seq<Contribution>)
    requires forall c :: c in cs <==> c in ds
    ensures CrispRisk(cs) == CrispRisk(ds)
  {
    forall s: RiskSet
      ensures Strongest(cs, s) == Strongest(ds, s)
    {
      StrongestIsMax(cs, s);
      StrongestIsMax(ds, s);
    }
    CrispRiskIsOfLevels(cs);
    CrispRiskIsOfLevels(ds);
  }

  /** Rule bases that hold the same rules, declared in any order and with any priorities, conclude
      the same: the rules that fire, the facts, the votes and the crisp risk. */
  lemma Confluence(kb: seq<Rule>, kb': seq<Rule>, m: Memberships, cap: nat, cap': nat)
    requires Monotone(kb) && Monotone(kb') && Bodies(kb) == Bodies(kb') && cap >= |kb| && cap' >= |kb'|
    ensures var (w, w') := (Inferred(kb, m, cap), Inferred(kb', m, cap'));
            && w.fired == w'.fired && w.facts == w'.facts
            && multiset(w.votes) == multiset(w'.votes)
            && CrispRisk(w.votes) == CrispRisk(w'.votes)
  {
    var w, w' := Inferred(kb, m, cap), Inferred(kb', m, cap');
    FiredIsLeastClosure(kb, m, cap);
    FiredIsLeastClosure(kb', m, cap');
    assert w.fired == w'.fired;
    forall c
      ensures c in w.votes <==> c in w'.votes
    {
      assert (c in w.votes <==> c in multiset(w.votes)) && (c in w'.votes <==> c in multiset(w'.votes));
    }
    SameVotesSameRisk(w.votes, w'.votes);
  }

  // ----- Denying a fact -----

  predicate Affirms(derive: Rule) { derive == Rule(R08_safe_clearance, Collision, 1, [], [DeriveFact(safe_clearance, true)]) }

  predicate Presumes(absent: Rule) { absent == Rule(R12_safe_plan, Trajectory, 1, [FactEquals(safe_clearance, false)], [RiskIs(Low)]) }

  lemma AgendaOfTwo(r: Rule, q: Rule)
    requires r.priority == q.priority
    ensures Agenda([r, q]) == [r, q]
  {
    assert [r, q][..1] == [r] && [r][..0] == [];
    assert Agenda([r]) == [r];
  }

  lemma PassOfTwo(r: Rule, q: Rule, w: Memory, m: Memberships)
    ensures Pass([r, q], w, m) == Visit(Visit(w, r, m), q, m)
  {
    assert [r, q][..1] == [r] && [r][..0] == [];
    assert Pass([r], w, m) == Visit(w, r, m);
  }

  lemma DeriveVisited(derive: Rule)
    requires Affirms(derive)
    ensures Visit(BLANK, derive, map[]).facts == map[safe_clearance := true]
    ensures Visit(BLANK, derive, map[]).fired == {R08_safe_clearance}
  {
    assert derive.consequents[..0] == [];
  }

  lemma AbsentWaits(absent: Rule, w: Memory)
    requires Presumes(absent) && Known(w.facts, safe_clearance)
    ensures Visit(w, absent, map[]) == w
  {
    assert !Satisfied(absent.antecedents[0], map[], w.facts);
  }

  lemma DeriveFirst(derive: Rule, absent: Rule, cap: nat)
    requires Affirms(derive) && Presumes(absent) && cap >= 1
    ensures R12_safe_plan !in Inferred([derive, absent], map[], cap).fired
  {
    var agenda, one := [derive, absent], Visit(BLANK, derive, map[]);
    AgendaOfTwo(derive, absent);
    DeriveVisited(derive);
    AbsentWaits(absent, one);
    PassOfTwo(derive, absent, BLANK, map[]);
    PassOfTwo(derive, absent, one, map[]);
    assert Visit(one, derive, map[]) == one;
    assert Chain(agenda, one, map[], cap - 1) == one;
  }

  lemma AbsentVisited(absent: Rule)
    requires Presumes(absent)
    ensures R12_safe_plan in Visit(BLANK, absent, map[]).fired
  {
  }

  lemma FirstPassStays(agenda: seq<Rule>, m: Memberships, cap: nat)
    requires cap >= 1
    ensures Pass(agenda, BLANK, m).fired <= Chain(agenda, BLANK, m, cap).fired
  {
    PassLogs(agenda, BLANK, m);
    ChainLogs(agenda, Pass(agenda, BLANK, m), m, cap - 1);
  }

  lemma AbsentFirst(derive: Rule, absent: Rule, cap: nat)
    requires Affirms(derive) && Presumes(absent) && cap >= 1
    ensures R12_safe_plan in Inferred([absent, derive], map[], cap).fired
  {
    AgendaOfTwo(absent, derive);
    FirstPassStays([absent, derive], map[], cap);
    PassOfTwo(absent, derive, BLANK, map[]);
    AbsentVisited(absent);
    FiredStays(Visit(BLANK, absent, map[]), derive, map[]);
  }

  lemma FiredStays(w: Memory, r: Rule, m: Memberships)
    ensures w.fired <= Visit(w, r, m).fired
  {
  }

  /** An antecedent that denies what another rule grants breaks confluence: the same two rules in the other
      order conclude less. */
  lemma NegationDependsOnOrder(derive: Rule, absent: Rule, cap: nat)
    requires derive == Rule(R08_safe_clearance, Collision, 1, [], [DeriveFact(safe_clearance, true)])
    requires absent == Rule(R12_safe_plan, Trajectory, 1, [FactEquals(safe_clearance, false)], [RiskIs(Low)]) && cap >= 1
    ensures Bodies([derive, absent]) == Bodies([absent, derive])
    ensures R12_safe_plan !in Inferred([derive, absent], map[], cap).fired
    ensures R12_safe_plan in Inferred([absent, derive], map[], cap).fired
  {
    BodiesOfTwo(derive, absent);
    DeriveFirst(derive, absent, cap);
    AbsentFirst(derive, absent, cap);
  }

  lemma BodiesOfTwo(r: Rule, q: Rule)
    ensures Bodies([r, q]) == Bodies([q, r])
  {
    var kb, kb' := [r, q], [q, r];
    assert kb[0] == kb'[1] && kb[1] == kb'[0];
  }

  /** So does a fact derived both ways: the last of the two rules decides it. */
  lemma DenialDependsOnOrder(grants: Rule, denies: Rule, cap: nat)
    requires grants == Rule(R08_safe_clearance, Collision, 1, [], [DeriveFact(safe_clearance, true)])
    requires denies == Rule(R12_safe_plan, Trajectory, 1, [], [DeriveFact(safe_clearance, false)]) && cap >= 1
    ensures Bodies([grants, denies]) == Bodies([denies, grants])
    ensures Inferred([grants, denies], map[], cap).facts == map[safe_clearance := false]
    ensures Inferred([denies, grants], map[], cap).facts == map[safe_clearance := true]
  {
    BodiesOfTwo(grants, denies);
    LastDecides(grants, denies, false, cap);
    LastDecides(denies, grants, true, cap);
  }

  predicate Decides(r: Rule, value: bool) { r.antecedents == [] && r.consequents == [DeriveFact(safe_clearance, value)] }

  lemma Decided(r: Rule, value: bool, w: Memory)
    requires Decides(r, value) && r.id !in w.fired
    ensures Visit(w, r, map[]).facts == w.facts[safe_clearance := value]
    ensures Visit(w, r, map[]).fired == w.fired + {r.id}
  {
    assert r.consequents[..0] == [] && r.consequents[|r.consequents| - 1] == DeriveFact(safe_clearance, value);
    assert ApplyAll(w, map[], r.consequents[..0], Activation(r.antecedents, map[])) == (w, map[]);
    assert Enabled(r, map[], w.facts);
  }

  lemma LastDecides(first: Rule, last: Rule, value: bool, cap: nat)
    requires Decides(first, !value) && Decides(last, value) && first.id != last.id && first.priority == last.priority && cap >= 1
    ensures Inferred([first, last], map[], cap).facts == map[safe_clearance := value]
  {
    var agenda := [first, last];
    var one := Visit(BLANK, first, map[]);
    var both := Visit(one, last, map[]);
    AgendaOfTwo(first, last);
    Decided(first, !value, BLANK);
    Decided(last, value, one);
    PassOfTwo(first, last, BLANK, map[]);
    PassOfTwo(first, last, both, map[]);
    assert Pass(agenda, both, map[]) == both;
    assert Chain(agenda, both, map[], cap - 1) == both;
  }
}
