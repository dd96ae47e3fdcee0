/** One simulated execution, poll by poll: backend/crates/thalos-runtime/examples/esp-simulator.rs:428-520. */
module SimulatorRun {
  import opened Prelude
  import opened Manifests
  import opened Wire
  import opened SimulatorModel

  /** The simulator after EXECUTE and `k` STATUS polls. */
  function Polled(s: Sim, k: nat): Sim
    requires s.samplesPerRun > 0
    ensures Polled(s, k).samplesPerRun == s.samplesPerRun
  {
    if k == 0 then OnExecute(s).0 else OnStatus(Polled(s, k - 1)).0
  }

  /** EXECUTE is accepted. */
  predicate Startable(s: Sim) { s.state == Ready && s.samplesPerRun > 0 }

  lemma {:induction false} RampState(s: Sim, k: nat)
    requires Startable(s) && k <= TotalSteps(s) + 1
    ensures Polled(s, k) == s.(state := Executing, execStep := k)
  {
    if k > 0 {
      RampState(s, k - 1);
      PollSteps(s.(state := Executing, execStep := k - 1));
    }
  }

  lemma PollSteps(s: Sim)
    requires s.state == Executing && s.execStep <= TotalSteps(s) && s.samplesPerRun > 0
    ensures OnStatus(s).0 == s.(execStep := s.execStep + 1)
  {
  }

  function RampProgress(s: Sim, k: nat): real
  {
    k as real / TotalSteps(s) as real
  }

  lemma QuotientAtLeast(x: real, d: real)
    requires x >= 0.0 && d > 0.0
    ensures x / d >= 0.0
  {
  }

  lemma QuotientDifference(x: real, y: real, d: real)
    requires d > 0.0
    ensures (y - x) / d == y / d - x / d
  {
  }

  lemma QuotientOfSelf(d: real)
    requires d > 0.0
    ensures d / d == 1.0
  {
  }

  lemma DivOrder(x: real, y: real, d: real)
    requires 0.0 <= x <= y && d > 0.0
    ensures 0.0 <= x / d <= y / d
  {
    QuotientAtLeast(x, d);
    QuotientAtLeast(y - x, d);
    QuotientDifference(x, y, d);
  }

  lemma Fractions(a: nat, b: nat, n: nat)
    requires a <= b <= n && n > 0
    ensures 0.0 <= a as real / n as real <= b as real / n as real <= 1.0
    ensures n as real / n as real == 1.0
  {
    DivOrder(a as real, b as real, n as real);
    DivOrder(b as real, n as real, n as real);
    QuotientOfSelf(n as real);
  }

  /** Polls 0 to TotalSteps report RUNNING, with a progress that starts at 0, never falls and ends at 1. */
  lemma RampRises(s: Sim, k: nat)
    requires Startable(s) && k <= TotalSteps(s)
    ensures |OnStatus(Polled(s, k)).1| == 1 && OnStatus(Polled(s, k)).1[0].StatusRunning?
    ensures OnStatus(Polled(s, k)).1[0].progress == RampProgress(s, k)
    ensures 0.0 <= RampProgress(s, k) <= 1.0 && RampProgress(s, 0) == 0.0 && RampProgress(s, TotalSteps(s)) == 1.0
    ensures k < TotalSteps(s) ==> RampProgress(s, k) <= RampProgress(s, k + 1)
  {
    RampReply(s, k);
    ProgressRises(k, TotalSteps(s));
  }

  lemma RampReply(s: Sim, k: nat)
    requires Startable(s) && k <= TotalSteps(s)
    ensures |OnStatus(Polled(s, k)).1| == 1 && OnStatus(Polled(s, k)).1[0].StatusRunning?
    ensures OnStatus(Polled(s, k)).1[0].progress == RampProgress(s, k)
  {
    RampState(s, k);
  }

  lemma ProgressRises(k: nat, total: nat)
    requires k <= total && total > 0
    ensures 0.0 <= k as real / total as real <= 1.0 && 0.0 / total as real == 0.0 && total as real / total as real == 1.0
    ensures k < total ==> k as real / total as real <= (k + 1) as real / total as real
  {
    Fractions(k, if k < total then k + 1 else k, total);
  }

  // ----- The generated trace -----

  function SampleProgress(n: nat, i: nat): real
    requires i < n
  {
    if n > 1 then i as real / (n - 1) as real else 0.0
  }

  lemma TimesAtLeast(a: real, b: real)
    requires a >= 0.0 && b >= 0.0
    ensures Times(a, b) >= 0.0
  {
  }

  lemma TimesDifference(a: real, b: real, c: real)
    ensures Times(b - a, c) == Times(b, c) - Times(a, c)
  {
  }

  lemma TimesOrder(p: real, q: real, x: real)
    requires 0.0 <= p <= q <= 1.0 && 0.0 < x
    ensures 0.0 <= Times(p, x) <= Times(q, x) <= x
  {
    TimesAtLeast(p, x);
    TimesAtLeast(q - p, x);
    TimesAtLeast(1.0 - q, x);
    TimesDifference(p, q, x);
    TimesDifference(q, 1.0, x);
  }

  lemma ProductOrder(p: real, q: real, x: real, d: real)
    requires 0.0 <= p <= q <= 1.0 && 0.0 < x <= d
    ensures 0.0 <= Times(p, x) / d <= Times(q, x) / d <= 1.0
  {
    TimesOrder(p, q, x);
    DivOrder(Times(p, x), Times(q, x), d);
    DivOrder(Times(q, x), d, d);
    QuotientOfSelf(d);
  }

  /** The joints commanded at a larger share of the run are no smaller, and all are in [0, 1]. */
  lemma RampJointsRise(s: Sim, p: real, q: real, j: nat)
    requires 0.0 <= p <= q <= 1.0 && j < s.meta.dof
    ensures 0.0 <= RampJoints(s, p)[j] <= RampJoints(s, q)[j] <= 1.0
  {
    RampJointsAt(s, p, j);
    RampJointsAt(s, q, j);
    JointOrder(p, q, j, s.meta.dof);
  }

  lemma RampJointsAt(s: Sim, p: real, j: nat)
    requires j < s.meta.dof
    ensures RampJoints(s, p)[j] == Joint(p, j, s.meta.dof)
  {
  }

  lemma JointOrder(p: real, q: real, j: nat, dof: nat)
    requires 0.0 <= p <= q <= 1.0 && j < dof
    ensures 0.0 <= Joint(p, j, dof) <= Joint(q, j, dof) <= 1.0
  {
    ProductOrder(p, q, j as real + 1.0, dof as real);
  }

  /** Every pose reported on the way has all its joints in [0, 1]. */
  lemma RampStaysInUnit(s: Sim, k: nat)
    requires Startable(s) && k <= TotalSteps(s)
    ensures |OnStatus(Polled(s, k)).1| == 1 && OnStatus(Polled(s, k)).1[0].StatusRunning?
    ensures var joints := OnStatus(Polled(s, k)).1[0].joints;
            |joints| == s.meta.dof && forall j: nat | j < |joints| :: 0.0 <= joints[j] <= 1.0
  {
    RampState(s, k);
    PosesStay(Polled(s, k));
  }

  lemma PosesStay(s: Sim)
    requires s.state == Executing && s.execStep <= TotalSteps(s) && s.samplesPerRun > 0
    ensures |OnStatus(s).1| == 1 && OnStatus(s).1[0].StatusRunning?
    ensures var joints := OnStatus(s).1[0].joints;
            |joints| == s.meta.dof && forall j: nat | j < |joints| :: 0.0 <= joints[j] <= 1.0
  {
    var within := (s.execStep % PROGRESS_STEPS) as real / PROGRESS_STEPS as real;
    Fractions(s.execStep % PROGRESS_STEPS, PROGRESS_STEPS, PROGRESS_STEPS);
    assert OnStatus(s).1[0].joints == RampJoints(s, within);
    RampsOrdered(s, within, within);
  }

  lemma StepOrder(i: nat, k: nat, n: nat, step: nat)
    requires i <= k <= n
    ensures 0 <= i * step <= k * step <= n * step
  {
  }

  /** Stamps rise by even steps through the last pass. */
  lemma StampsRise(base: nat, duration: nat, n: nat, i: nat, k: nat)
    requires n > 0 && i <= k < n
    ensures base <= base + i * (duration / n) <= base + k * (duration / n) <= base + duration
  {
    StepOrder(i, k, n, duration / n);
    assert n * (duration / n) <= duration;
  }

  /** The planned start of the last pass. */
  function Base(meta: Meta): nat
  {
    (if meta.repeatCount == 0 then 0 else meta.repeatCount - 1) * meta.durationUs
  }

  predicate InLastPass(meta: Meta, stamp: nat) { Base(meta) <= stamp <= Base(meta) + meta.durationUs }

  predicate Ordered(dof: nat, a: Recorded, b: Recorded)
  {
    && a.timestamp <= b.timestamp && |a.joints| == |b.joints| == dof
    && forall j | 0 <= j < dof :: 0.0 <= a.joints[j] <= b.joints[j] <= 1.0
  }

  /** The arm at rest. */
  predicate AtRest(joints: seq<real>) { forall j | 0 <= j < |joints| :: joints[j] == 0.0 }

  /** The end of the ramp: joint j at (j + 1) / dof. */
  predicate AtEnd(joints: seq<real>)
  {
    forall j | 0 <= j < |joints| :: joints[j] == (j as real + 1.0) / |joints| as real
  }

  /** The trace of a completed run: one pass of samples, in the last pass, its stamps and its joints never
      falling, from the arm at rest to the end of the ramp. */
  ghost predicate TraceOfRun(meta: Meta, n: nat, recorded: seq<Recorded>)
  {
    && |recorded| == n > 0
    && (forall i, k | 0 <= i <= k < |recorded| :: Ordered(meta.dof, recorded[i], recorded[k]))
    && (forall i | 0 <= i < |recorded| :: InLastPass(meta, recorded[i].timestamp))
    && AtRest(recorded[0].joints)
    && (|recorded| > 1 ==> AtEnd(recorded[|recorded| - 1].joints))
  }

  lemma GeneratedIs(s: Sim, i: nat)
    requires i < s.samplesPerRun
    ensures |GeneratedSamples(s)| == s.samplesPerRun
    ensures GeneratedSamples(s)[i].timestamp == Base(s.meta) + i * (s.meta.durationUs / s.samplesPerRun)
    ensures GeneratedSamples(s)[i].joints == RampJoints(s, SampleProgress(s.samplesPerRun, i))
  {
  }

  lemma RampsOrdered(s: Sim, p: real, q: real)
    requires 0.0 <= p <= q <= 1.0
    ensures forall j: nat | j < s.meta.dof :: 0.0 <= RampJoints(s, p)[j] <= RampJoints(s, q)[j] <= 1.0
  {
    forall j: nat | j < s.meta.dof ensures 0.0 <= RampJoints(s, p)[j] <= RampJoints(s, q)[j] <= 1.0 {
      RampJointsRise(s, p, q, j);
    }
  }

  lemma SamplesOrdered(s: Sim, i: nat, k: nat)
    requires i <= k < s.samplesPerRun
    ensures |GeneratedSamples(s)| == s.samplesPerRun
    ensures Ordered(s.meta.dof, GeneratedSamples(s)[i], GeneratedSamples(s)[k])
    ensures InLastPass(s.meta, GeneratedSamples(s)[i].timestamp)
  {
    var n := s.samplesPerRun;
    GeneratedIs(s, i);
    GeneratedIs(s, k);
    StampsRise(Base(s.meta), s.meta.durationUs, n, i, k);
    if n > 1 { Fractions(i, k, n - 1); }
    RampsOrdered(s, SampleProgress(n, i), SampleProgress(n, k));
  }

  lemma RampEnds(s: Sim)
    ensures AtRest(RampJoints(s, 0.0)) && AtEnd(RampJoints(s, 1.0))
  {
  }

  lemma GeneratedEnds(s: Sim)
    requires s.samplesPerRun > 0
    ensures var recorded := GeneratedSamples(s);
            && |recorded| == s.samplesPerRun && AtRest(recorded[0].joints)
            && (|recorded| > 1 ==> AtEnd(recorded[|recorded| - 1].joints))
  {
    var n := s.samplesPerRun;
    GeneratedIs(s, 0);
    GeneratedIs(s, n - 1);
    SampleEnds(n);
    RampEnds(s);
  }

  lemma SampleEnds(n: nat)
    requires n > 0
    ensures SampleProgress(n, 0) == 0.0 && (n > 1 ==> SampleProgress(n, n - 1) == 1.0)
  {
    if n > 1 { QuotientOfSelf((n - 1) as real); }
  }

  lemma GeneratedIsTrace(s: Sim)
    requires s.samplesPerRun > 0
    ensures TraceOfRun(s.meta, s.samplesPerRun, GeneratedSamples(s))
  {
    GeneratedEnds(s);
    forall i, k | 0 <= i <= k < s.samplesPerRun
      ensures Ordered(s.meta.dof, GeneratedSamples(s)[i], GeneratedSamples(s)[k])
      ensures InLastPass(s.meta, GeneratedSamples(s)[i].timestamp)
    {
      SamplesOrdered(s, i, k);
    }
  }

  /** The poll after the ramp completes the run, exactly TotalSteps + 1 polls after EXECUTE. */
  lemma RunCompletes(s: Sim)
    requires Startable(s)
    ensures Polled(s, TotalSteps(s) + 1).state == Executing
    ensures OnStatus(Polled(s, TotalSteps(s) + 1)).1 == [StatusCompleted(s.samplesPerRun)]
    ensures Polled(s, TotalSteps(s) + 2).state == Completed
    ensures TraceOfRun(s.meta, s.samplesPerRun, Polled(s, TotalSteps(s) + 2).recorded)
  {
    RampState(s, TotalSteps(s) + 1);
    var late := s.(state := Executing, execStep := TotalSteps(s) + 1);
    assert OnStatus(late) == (late.(recorded := GeneratedSamples(late), state := Completed), [StatusCompleted(s.samplesPerRun)]);
    GeneratedIsTrace(late);
  }

  // ----- Even steps -----

  lemma QuotientTimes(x: real, d: real)
    requires d > 0.0
    ensures x / d * d == x
  {
  }

  /** Joint j of the ramp, times the number of joints, is j + 1 shares of it. */
  lemma JointShare(p: real, j: nat, dof: nat)
    requires j < dof
    ensures Joint(p, j, dof) * dof as real == Times(p, j as real + 1.0)
  {
    QuotientTimes(Times(p, j as real + 1.0), dof as real);
  }

  /** The share is `i` of as many steps, and the joint that share of its end of the ramp, (j + 1) / dof. */
  predicate Along(share: real, joint: real, i: nat, steps: nat, j: nat, dof: nat)
  {
    share * steps as real == i as real && joint * dof as real == Times(share, j as real + 1.0)
  }

  /** A joint is `i` of as many steps along the ramp. */
  ghost predicate InStep(joint: real, i: nat, steps: nat, j: nat, dof: nat)
  {
    exists share :: Along(share, joint, i, steps, j, dof)
  }

  /** Poll k of the ramp reports k of 10 * repeat steps. */
  lemma PollIsEven(s: Sim, k: nat)
    requires Startable(s) && s.meta.repeatCount > 0 && k <= 10 * s.meta.repeatCount
    ensures |OnStatus(Polled(s, k)).1| == 1 && OnStatus(Polled(s, k)).1[0].StatusRunning?
    ensures Times(OnStatus(Polled(s, k)).1[0].progress, (10 * s.meta.repeatCount) as real) == k as real
  {
    RampReply(s, k);
    ProgressInSteps(s, k);
  }

  lemma ProgressInSteps(s: Sim, k: nat)
    requires s.meta.repeatCount > 0
    ensures Times(RampProgress(s, k), (10 * s.meta.repeatCount) as real) == k as real
  {
    QuotientTimes(k as real, TotalSteps(s) as real);
    assert TotalSteps(s) == 10 * s.meta.repeatCount;
  }

  /** And a pose k of ten steps along the ramp, which begins anew with every pass. */
  lemma PoseIsEven(s: Sim, k: nat, j: nat)
    requires Startable(s) && s.meta.repeatCount > 0 && k <= 10 * s.meta.repeatCount && j < s.meta.dof
    ensures |OnStatus(Polled(s, k)).1| == 1 && OnStatus(Polled(s, k)).1[0].StatusRunning?
    ensures |OnStatus(Polled(s, k)).1[0].joints| == s.meta.dof
    ensures InStep(OnStatus(Polled(s, k)).1[0].joints[j], k % 10, 10, j, s.meta.dof)
  {
    RampState(s, k);
    PoseInStep(Polled(s, k), j);
  }

  lemma PoseInStep(s: Sim, j: nat)
    requires s.state == Executing && s.execStep <= TotalSteps(s) && s.samplesPerRun > 0 && j < s.meta.dof
    ensures |OnStatus(s).1| == 1 && OnStatus(s).1[0].StatusRunning? && |OnStatus(s).1[0].joints| == s.meta.dof
    ensures InStep(OnStatus(s).1[0].joints[j], s.execStep % 10, 10, j, s.meta.dof)
  {
    var within := (s.execStep % PROGRESS_STEPS) as real / PROGRESS_STEPS as real;
    assert OnStatus(s).1[0].joints == RampJoints(s, within);
    Tenth(s.execStep);
    JointInStep(s, within, s.execStep % 10, 10, j);
  }

  lemma Tenth(k: nat)
    ensures (k % PROGRESS_STEPS) as real / PROGRESS_STEPS as real * 10.0 == (k % 10) as real
  {
  }

  lemma JointInStep(s: Sim, share: real, i: nat, steps: nat, j: nat)
    requires j < s.meta.dof && share * steps as real == i as real
    ensures InStep(RampJoints(s, share)[j], i, steps, j, s.meta.dof)
  {
    RampJointsAt(s, share, j);
    JointShare(share, j, s.meta.dof);
    assert Along(share, RampJoints(s, share)[j], i, steps, j, s.meta.dof);
  }

  /** The recorded samples are evenly spaced: sample i at i whole steps of duration / n after the start of the last pass,
      and its joints i of n - 1 steps along the ramp. */
  ghost predicate EvenlySpaced(meta: Meta, n: nat, recorded: seq<Recorded>)
  {
    && |recorded| == n > 0
    && (forall i: nat | i < n ::
          && recorded[i].timestamp
             == (if meta.repeatCount == 0 then 0 else meta.repeatCount - 1) * meta.durationUs + i * (meta.durationUs / n)
          && |recorded[i].joints| == meta.dof)
    && (forall i: nat, j: nat | i < n && j < meta.dof && |recorded[i].joints| == meta.dof ::
          InStep(recorded[i].joints[j], i, n - 1, j, meta.dof))
  }

  lemma GeneratedIsEven(s: Sim)
    requires s.samplesPerRun > 0
    ensures EvenlySpaced(s.meta, s.samplesPerRun, GeneratedSamples(s))
  {
    var n := s.samplesPerRun;
    forall i: nat | i < n
      ensures |GeneratedSamples(s)| == n && |GeneratedSamples(s)[i].joints| == s.meta.dof
      ensures GeneratedSamples(s)[i].timestamp == Base(s.meta) + i * (s.meta.durationUs / n)
    {
      GeneratedIs(s, i);
    }
    forall i: nat, j: nat | i < n && j < s.meta.dof
      ensures InStep(GeneratedSamples(s)[i].joints[j], i, n - 1, j, s.meta.dof)
    {
      GeneratedIs(s, i);
      SampleInStep(s, i, j);
    }
  }

  lemma SampleInStep(s: Sim, i: nat, j: nat)
    requires i < s.samplesPerRun && j < s.meta.dof
    ensures InStep(RampJoints(s, SampleProgress(s.samplesPerRun, i))[j], i, s.samplesPerRun - 1, j, s.meta.dof)
  {
    var n := s.samplesPerRun;
    if n > 1 { QuotientTimes(i as real, (n - 1) as real); }
    JointInStep(s, SampleProgress(n, i), i, n - 1, j);
  }

  /** What the completed run holds. */
  lemma RunIsEven(s: Sim)
    requires Startable(s)
    ensures EvenlySpaced(s.meta, s.samplesPerRun, Polled(s, TotalSteps(s) + 2).recorded)
  {
    RampState(s, TotalSteps(s) + 1);
    var late := s.(state := Executing, execStep := TotalSteps(s) + 1);
    assert OnStatus(late).0 == late.(recorded := GeneratedSamples(late), state := Completed);
    GeneratedIsEven(late);
  }
}
