/** Forward chaining on a priority agenda: backend/crates/thalos-intelligence/src/engine.rs. */
module Engine {
  import opened Prelude
  import opened Risk
  import opened KnowledgeBase

  const MAX_ITERATIONS: nat := 50

  /** What a fired rule was matched on: a degree for each metric antecedent, a truth value for each fact. */
  datatype Bindings = Bindings(degrees: map<(LinguisticVar, SetName), real>, truths: map<Fact, bool>)

  datatype TraceEntry = TraceEntry(id: RuleId, priority: nat, bindings: Bindings, derived: map<Fact, bool>)

  /** The working memory of a run. */
  datatype Memory = Memory(
    facts: map<Fact, bool>, evidence: map<EvidenceKey, real>,
    trace: seq<TraceEntry>, votes: seq<Contribution>, fired: set<RuleId>)

  const BLANK := Memory(map[], map[], [], [], {})

  // ----- One rule -----

  /** An absent fact counts as false. */
  function Known(facts: map<Fact, bool>, f: Fact): bool { f in facts && facts[f] }

  predicate Satisfied(a: Antecedent, m: Memberships, facts: map<Fact, bool>)
  {
    match a
    case MetricIs(variable, setName) => Degree(m, variable, setName) > 0.0
    case FactEquals(fact, value) => Known(facts, fact) == value
  }

  /** The AND of the degrees of the metric antecedents. */
  function Activation(antecedents: seq<Antecedent>, m: Memberships): real
  {
    if antecedents == [] then 1.0
    else
      var before, last := Activation(antecedents[..|antecedents| - 1], m), antecedents[|antecedents| - 1];
      match last
      case MetricIs(variable, setName) => MinReal(before, Degree(m, variable, setName))
      case FactEquals(_, _) => before
  }

  /** The activation is the greatest number that is no more than 1 and than the degree of any metric antecedent. */
  lemma {:induction false} ActivationIsLeast(antecedents: seq<Antecedent>, m: Memberships)
    ensures Activation(antecedents, m) <= 1.0
    ensures forall v, s | MetricIs(v, s) in antecedents :: Activation(antecedents, m) <= Degree(m, v, s)
    ensures Activation(antecedents, m) == 1.0
         || exists v, s :: MetricIs(v, s) in antecedents && Activation(antecedents, m) == Degree(m, v, s)
  {
    if antecedents != [] {
      var front, last := antecedents[..|antecedents| - 1], antecedents[|antecedents| - 1];
      ActivationIsLeast(front, m);
      assert antecedents == front + [last];
      if last.MetricIs? { assert MetricIs(last.variable, last.setName) in antecedents; }
    }
  }

  predicate Enabled(r: Rule, m: Memberships, facts: map<Fact, bool>)
  {
    forall i | 0 <= i < |r.antecedents| :: Satisfied(r.antecedents[i], m, facts)
  }

  function Bound(antecedents: seq<Antecedent>, m: Memberships, facts: map<Fact, bool>): Bindings
  {
    if antecedents == [] then Bindings(map[], map[])
    else
      var before, last := Bound(antecedents[..|antecedents| - 1], m, facts), antecedents[|antecedents| - 1];
      match last
      case MetricIs(variable, setName) =>
        before.(degrees := before.degrees[(variable, setName) := Degree(m, variable, setName)])
      case FactEquals(fact, _) => before.(truths := before.truths[fact := Known(facts, fact)])
  }

  /** The bindings account for every antecedent and name nothing else. */
  lemma {:induction false} BoundIs(antecedents: seq<Antecedent>, m: Memberships, facts: map<Fact, bool>)
    ensures forall variable, setName :: (variable, setName) in Bound(antecedents, m, facts).degrees
                                   <==> MetricIs(variable, setName) in antecedents
    ensures forall variable, setName | (variable, setName) in Bound(antecedents, m, facts).degrees ::
              Bound(antecedents, m, facts).degrees[(variable, setName)] == Degree(m, variable, setName)
    ensures forall fact :: fact in Bound(antecedents, m, facts).truths
                      <==> FactEquals(fact, true) in antecedents || FactEquals(fact, false) in antecedents
    ensures forall fact | fact in Bound(antecedents, m, facts).truths ::
              Bound(antecedents, m, facts).truths[fact] == Known(facts, fact)
  {
    if antecedents != [] {
      var n := |antecedents| - 1;
      BoundIs(antecedents[..n], m, facts);
      assert antecedents == antecedents[..n] + [antecedents[n]];
    }
  }

  /** The activation of a rule whose antecedents all match. */
  method EvaluateRule(r: Rule, m: Memberships, facts: map<Fact, bool>) returns (activation: Option<real>)
    ensures activation == if Enabled(r, m, facts) then Some(Activation(r.antecedents, m)) else None
    ensures activation.Some? ==>
              && activation.value <= 1.0
              && (forall v, s | MetricIs(v, s) in r.antecedents :: activation.value <= Degree(m, v, s))
              && (activation.value == 1.0
                  || exists v, s :: MetricIs(v, s) in r.antecedents && activation.value == Degree(m, v, s))
  {
    ActivationIsLeast(r.antecedents, m);
    var level := 1.0;
    for i := 0 to |r.antecedents|
      invariant level == Activation(r.antecedents[..i], m)
      invariant forall k | 0 <= k < i :: Satisfied(r.antecedents[k], m, facts)
    {
      assert r.antecedents[..i + 1][..i] == r.antecedents[..i];
      match r.antecedents[i]
      case MetricIs(variable, setName) =>
        var degree := Degree(m, variable, setName);
        if degree <= 0.0 {
          assert !Satisfied(r.antecedents[i], m, facts);
          return None;
        }
        level := MinReal(level, degree);
      case FactEquals(fact, value) =>
        if Known(facts, fact) != value {
          assert !Satisfied(r.antecedents[i], m, facts);
          return None;
        }
    }
    assert r.antecedents[..|r.antecedents|] == r.antecedents;
    return Some(level);
  }

  function Apply(w: Memory, derived: map<Fact, bool>, c: Consequent, activation: real): (Memory, map<Fact, bool>)
  {
    match c
    case DeriveFact(fact, value) => (w.(facts := w.facts[fact := value]), derived[fact := value])
    case MarkEvidence(key, amount) => (w.(evidence := w.evidence[key := amount]), derived)
    case RiskIs(riskSet) => (w.(votes := w.votes + [Contribution(activation, riskSet)]), derived)
  }

  function ApplyAll(w: Memory, derived: map<Fact, bool>, cs: seq<Consequent>, activation: real): (Memory, map<Fact, bool>)
  {
    if cs == [] then (w, derived)
    else
      var (before, mid) := ApplyAll(w, derived, cs[..|cs| - 1], activation);
      Apply(before, mid, cs[|cs| - 1], activation)
  }

  /** Fires a rule that has not fired and whose antecedents match. */
  function Visit(w: Memory, r: Rule, m: Memberships): Memory
  {
    if r.id in w.fired || !Enabled(r, m, w.facts) then w
    else
      var (applied, derived) := ApplyAll(w, map[], r.consequents, Activation(r.antecedents, m));
      applied.(fired := w.fired + {r.id}, trace := w.trace + [EntryOf(r, m, w.facts, derived)])
  }

  function EntryOf(r: Rule, m: Memberships, facts: map<Fact, bool>, derived: map<Fact, bool>): TraceEntry
  {
    TraceEntry(r.id, r.priority, Bound(r.antecedents, m, facts), derived)
  }

  // ----- The agenda -----

  /** Inserts behind every rule of at least the same priority. */
  function Insert(sorted: seq<Rule>, r: Rule): seq<Rule>
  {
    if sorted == [] || sorted[|sorted| - 1].priority >= r.priority then sorted + [r]
    else Insert(sorted[..|sorted| - 1], r) + [sorted[|sorted| - 1]]
  }

  /** The stable sort by falling priority. */
  function Agenda(kb: seq<Rule>): seq<Rule>
  {
    if kb == [] then [] else Insert(Agenda(kb[..|kb| - 1]), kb[|kb| - 1])
  }

  lemma {:induction false} InsertKeeps(sorted: seq<Rule>, r: Rule)
    ensures multiset(Insert(sorted, r)) == multiset(sorted) + multiset{r}
  {
    if !(sorted == [] || sorted[|sorted| - 1].priority >= r.priority) {
      InsertKeeps(sorted[..|sorted| - 1], r);
      assert sorted == sorted[..|sorted| - 1] + [sorted[|sorted| - 1]];
    }
  }

  lemma {:induction false} AgendaKeeps(kb: seq<Rule>)
    ensures multiset(Agenda(kb)) == multiset(kb)
  {
    if kb != [] {
      AgendaKeeps(kb[..|kb| - 1]);
      InsertKeeps(Agenda(kb[..|kb| - 1]), kb[|kb| - 1]);
      assert kb == kb[..|kb| - 1] + [kb[|kb| - 1]];
    }
  }

  lemma AgendaSameRules(kb: seq<Rule>)
    ensures |Agenda(kb)| == |kb|
    ensures forall r :: r in Agenda(kb) <==> r in kb
  {
    AgendaKeeps(kb);
    assert |multiset(Agenda(kb))| == |multiset(kb)|;
    assert forall r :: (r in Agenda(kb) <==> r in multiset(Agenda(kb))) && (r in kb <==> r in multiset(kb));
  }

  predicate Descending(rules: seq<Rule>)
  {
    forall i, j | 0 <= i < j < |rules| :: rules[i].priority >= rules[j].priority
  }

  function OfPriority(rules: seq<Rule>, priority: nat): seq<Rule>
  {
    if rules == [] then []
    else
      var last := rules[|rules| - 1];
      OfPriority(rules[..|rules| - 1], priority) + if last.priority == priority then [last] else []
  }

  lemma {:induction false} InsertDescends(sorted: seq<Rule>, r: Rule)
    requires Descending(sorted)
    ensures Descending(Insert(sorted, r))
  {
    if !(sorted == [] || sorted[|sorted| - 1].priority >= r.priority) {
      var front, last := sorted[..|sorted| - 1], sorted[|sorted| - 1];
      InsertDescends(front, r);
      InsertKeeps(front, r);
      var inserted := Insert(front, r);
      forall i | 0 <= i < |inserted|
        ensures inserted[i].priority >= last.priority
      {
        assert inserted[i] in multiset(inserted);
        assert inserted[i] == r || inserted[i] in front;
      }
    }
  }

  lemma {:induction false} InsertIsStable(sorted: seq<Rule>, r: Rule, priority: nat)
    ensures OfPriority(Insert(sorted, r), priority) == OfPriority(sorted, priority) + if r.priority == priority then [r] else []
  {
    if sorted == [] || sorted[|sorted| - 1].priority >= r.priority {
      assert Insert(sorted, r)[..|sorted|] == sorted;
    } else {
      var front, last := sorted[..|sorted| - 1], sorted[|sorted| - 1];
      InsertIsStable(front, r, priority);
      assert Insert(sorted, r)[..|Insert(front, r)|] == Insert(front, r);
    }
  }

  /** The agenda holds the rules by falling priority, and rules of one priority as declared. */
  lemma {:induction false} AgendaIsStable(kb: seq<Rule>, priority: nat)
    ensures Descending(Agenda(kb)) && OfPriority(Agenda(kb), priority) == OfPriority(kb, priority)
  {
    if kb != [] {
      AgendaIsStable(kb[..|kb| - 1], priority);
      InsertDescends(Agenda(kb[..|kb| - 1]), kb[|kb| - 1]);
      InsertIsStable(Agenda(kb[..|kb| - 1]), kb[|kb| - 1], priority);
    }
  }

  // ----- Passes -----

  function Pass(agenda: seq<Rule>, w: Memory, m: Memberships): Memory
  {
    if agenda == [] then w else Visit(Pass(agenda[..|agenda| - 1], w, m), agenda[|agenda| - 1], m)
  }

  /** Passes until one fires nothing, or the cap is reached. */
  function Chain(agenda: seq<Rule>, w: Memory, m: Memberships, cap: nat): Memory
    decreases cap
  {
    if cap == 0 then w
    else
      var next := Pass(agenda, w, m);
      if next.fired == w.fired then next else Chain(agenda, next, m, cap - 1)
  }

  function Inferred(kb: seq<Rule>, m: Memberships, cap: nat): Memory { Chain(Agenda(kb), BLANK, m, cap) }

  method Run(kb: seq<Rule>, m: Memberships, maxIterations: nat) returns (w: Memory)
    ensures w == Inferred(kb, m, maxIterations)
  {
    var agenda := SortByPriority(kb);
    w := BLANK;
    for pass := 0 to maxIterations
      invariant Inferred(kb, m, maxIterations) == Chain(agenda, w, m, maxIterations - pass)
    {
      var anyFired;
      w, anyFired := RunPass(agenda, w, m);
      if !anyFired { break; }
    }
  }

  /** One walk over the agenda, and whether any rule fired on it. */
  method RunPass(agenda: seq<Rule>, before: Memory, m: Memberships) returns (w: Memory, anyFired: bool)
    ensures w == Pass(agenda, before, m)
    ensures anyFired <==> w.fired != before.fired
  {
    w, anyFired := before, false;
    for i := 0 to |agenda|
      invariant w == Pass(agenda[..i], before, m)
      invariant before.fired <= w.fired
      invariant anyFired <==> w.fired != before.fired
    {
      assert agenda[..i + 1][..i] == agenda[..i];
      var rule := agenda[i];
      if rule.id in w.fired { continue; }
      var activation := EvaluateRule(rule, m, w.facts);
      if activation.None? { continue; }
      anyFired := true;
      w := FireRule(w, rule, m, activation.value);
    }
    assert agenda[..|agenda|] == agenda;
  }

  method FireRule(before: Memory, r: Rule, m: Memberships, activation: real) returns (w: Memory)
    ensures var (applied, derived) := ApplyAll(before, map[], r.consequents, activation);
            w == applied.(fired := before.fired + {r.id}, trace := before.trace + [EntryOf(r, m, before.facts, derived)])
  {
    var bindings := BindAntecedents(r, m, before.facts);
    w := before;
    var derived: map<Fact, bool> := map[];
    for i := 0 to |r.consequents|
      invariant (w, derived) == ApplyAll(before, map[], r.consequents[..i], activation)
    {
      assert r.consequents[..i + 1][..i] == r.consequents[..i];
      match r.consequents[i]
      case DeriveFact(fact, value) =>
        w := w.(facts := w.facts[fact := value]);
        derived := derived[fact := value];
      case MarkEvidence(key, amount) =>
        w := w.(evidence := w.evidence[key := amount]);
      case RiskIs(riskSet) =>
        w := w.(votes := w.votes + [Contribution(activation, riskSet)]);
    }
    assert r.consequents[..|r.consequents|] == r.consequents;
    w := w.(fired := before.fired + {r.id}, trace := before.trace + [TraceEntry(r.id, r.priority, bindings, derived)]);
  }

  method BindAntecedents(r: Rule, m: Memberships, facts: map<Fact, bool>) returns (bindings: Bindings)
    ensures bindings == Bound(r.antecedents, m, facts)
  {
    bindings := Bindings(map[], map[]);
    for i := 0 to |r.antecedents|
      invariant bindings == Bound(r.antecedents[..i], m, facts)
    {
      assert r.antecedents[..i + 1][..i] == r.antecedents[..i];
      match r.antecedents[i]
      case MetricIs(variable, setName) =>
        bindings := bindings.(degrees := bindings.degrees[(variable, setName) := Degree(m, variable, setName)]);
      case FactEquals(fact, _) => bindings := bindings.(truths := bindings.truths[fact := Known(facts, fact)]);
    }
    assert r.antecedents[..|r.antecedents|] == r.antecedents;
  }

  method SortByPriority(kb: seq<Rule>) returns (agenda: seq<Rule>)
    ensures agenda == Agenda(kb)
  {
    agenda := [];
    for i := 0 to |kb|
      invariant agenda == Agenda(kb[..i])
    {
      assert kb[..i + 1][..i] == kb[..i];
      agenda := Insert(agenda, kb[i]);
    }
    assert kb[..|kb|] == kb;
  }
}
