/** The waypoint stepper as the firmware holds it: an object with a pointer to the protocol's
    manifest and a fixed buffer of samples. */
module Executors {
  import opened Prelude
  import opened Words
  import opened Manifests
  import opened ServoSafety
  import opened Servos
  import opened ExecutorModel

  /** The register writes of an update that wrote a pose, or did not write. */
  function Pulses(written: Option<seq<real>>): seq<Pwm>
  {
    if written.Some? && |written.value| >= CHANNELS then Burst(written.value) else []
  }

  /** What an update writes is where the outputs then command the arm to be, and where the stepper then takes it
      to be, unless the update closed a pass that is not the last. */
  lemma WriteMovesArm(e: Exec, ws: seq<Waypoint>, d: Drive, now: u32, sent: seq<Pwm>)
    requires e.mode == Running ==> Steppable(e, ws)
    ensures var (u, written) := Update(e, ws, d, now);
            written.Some? ==>
              && ArmAt(sent + Pulses(written), written.value)
              && (u.passesDone == e.passesDone || u.mode != Running ==> u.position == written.value)
  {
    var written := Update(e, ws, d, now).1;
    WrittenIsAccepted(e, ws, d, now);
    if written.Some? {
      BurstCommandsPose(written.value);
      PoseMovesArm(sent, Burst(written.value), written.value);
    }
  }

  lemma WrittenIsAccepted(e: Exec, ws: seq<Waypoint>, d: Drive, now: u32)
    requires e.mode == Running ==> Steppable(e, ws)
    ensures var (u, written) := Update(e, ws, d, now);
            written.Some? ==>
              && |written.value| >= CHANNELS && InEnvelope(written.value)
              && (u.passesDone == e.passesDone || u.mode != Running ==> u.position == written.value)
  {
    if e.mode == Running {
      ConsumeShape(e, ws, Sub32(now, e.start));
      ActedPasses(e, ws, d, now);
    }
  }

  lemma ActedPasses(e: Exec, ws: seq<Waypoint>, d: Drive, now: u32)
    requires e.mode == Running && Steppable(e, ws)
    ensures var (a, written) := Acted(e, ws, d, now);
            && a.passesDone == e.passesDone && a.mode == Running
            && (written.Some? ==> |written.value| >= CHANNELS && InEnvelope(written.value) && a.position == written.value)
  {
    ConsumeShape(e, ws, Sub32(now, e.start));
  }

  class Executor {
    var manifest: Manifest?
    var mode: Mode
    var index: nat
    var target: u32
    var start: u32
    var lastWrite: u32
    var recorded: array<Sample>
    var capacity: nat
    var next: nat
    var position: seq<real>
    var servo: ServoDriver?
    var repeatTotal: nat
    var passesDone: nat
    var timeBase: u32
    var passDuration: u32

    ghost predicate Valid()
      reads this
    {
      capacity == recorded.Length && next <= capacity
    }

    ghost function View(): Exec
      reads this, recorded
    {
      Exec(manifest != null, mode, index, target, start, lastWrite, recorded[..], next,
           position, repeatTotal, passesDone, timeBase, passDuration)
    }

    /** The waypoints behind the manifest pointer. */
    ghost function Waypoints(): seq<Waypoint>
      reads `manifest, manifest
    {
      if manifest == null then [] else manifest.samples
    }

    ghost function Wiring(): Drive
      reads `servo, servo
    {
      if servo == null then Drive(false, false, false) else servo.State()
    }

    /** The I2C device behind the servo driver, if there is one. */
    ghost function Bus(): set<object>
      reads `servo, servo
    {
      if servo == null || servo.pca == null then {} else {servo.pca}
    }

    ghost function Sent(): seq<Pwm>
      reads `servo, servo, if servo == null then {} else {servo.pca}
    {
      if servo == null then [] else servo.Sent()
    }

    constructor ()
      ensures Valid() && fresh(recorded) && manifest == null && servo == null && mode == Idle && position == []
    {
      manifest, mode, servo := null, Idle, null;
      index, target, start, lastWrite := 0, 0, 0, 0;
      recorded, capacity, next := new Sample[0], 0, 0;
      position := [];
      repeatTotal, passesDone, timeBase, passDuration := 1, 0, 0, 0;
    }

    method SetServoDriver(driver: ServoDriver)
      requires Valid()
      modifies `servo
      ensures servo == driver && Valid()
    {
      servo := driver;
    }

    method LoadManifest(m: Manifest)
      requires Valid()
      modifies `manifest, `mode, `index, `recorded, `capacity, `next, `passDuration, `repeatTotal, `passesDone, `timeBase
      ensures Valid() && fresh(recorded) && manifest == m
      ensures View() == Load(old(View()), m.Contents())
    {
      ResizeRecorded(|m.samples|);
      PointAt(m);
      var duration := PassDuration(m);
      passDuration, passesDone, timeBase := duration, 0, 0;
    }

    method PointAt(m: Manifest)
      requires Valid()
      modifies `manifest, `mode, `index, `repeatTotal
      ensures Valid() && manifest == m
      ensures View() == old(View()).(loaded := true, mode := Idle, index := 0, repeatTotal := m.meta.repeatCount)
    {
      manifest, index, mode, repeatTotal := m, 0, Idle, m.meta.repeatCount;
    }

    /** A buffer of `n` slots; the old slots that fit are kept. */
    method ResizeRecorded(n: nat)
      requires Valid()
      modifies `recorded, `capacity, `next
      ensures Valid() && fresh(recorded)
      ensures View() == old(View()).(slots := Resized(old(recorded[..]), n), next := 0)
    {
      var kept := recorded[..];
      recorded := new Sample[n](i => if 0 <= i < |kept| then kept[i] else Sample(0, []));
      capacity, next := n, 0;
      assert recorded[..] == Resized(kept, n);
    }

    /** The sum of every dt but the first, on the 32-bit clock. */
    static method PassDuration(m: Manifest) returns (duration: u32)
      ensures duration == PassLength(m.samples) % WORD
    {
      duration := 0;
      var i := 1;
      while i < |m.samples|
        invariant 1 <= i && (m.samples == [] ==> duration == 0)
        invariant (m.samples != [] ==> i <= |m.samples| && duration == Offset(m.samples, i - 1) % WORD)
      {
        Add32Mod(Offset(m.samples, i - 1), m.samples[i].dt);
        duration := Add32(duration, m.samples[i].dt);
        i := i + 1;
      }
    }

    /** Puts the stepper at the first waypoint. */
    method ResetPass(t0: u32, t1: u32)
      requires Valid() && manifest != null
      modifies `index, `target, `start, `lastWrite, `next, `position
      ensures Valid() && View() == BeginPass(old(View()), manifest.samples, t0, t1)
    {
      index, target, next := 0, 0, 0;
      start, lastWrite := t0, t1;
      var pose := [];
      if manifest.samples != [] {
        var n := Min(|manifest.samples[0].joints|, CHANNELS);
        pose := manifest.samples[0].joints[..n];
      }
      position := pose;
    }

    /** `t0` and `t1` are the readings of the two `micros()` calls. */
    method StartExecution(t0: u32, t1: u32)
      requires Valid()
      modifies `mode, `index, `target, `start, `lastWrite, `next, `position, `passesDone, `timeBase
      ensures Valid() && View() == Start(old(View()), Waypoints(), t0, t1)
      ensures manifest != null ==> mode == Running && index == 0 && start == t0 && lastWrite == t1
    {
      if manifest == null { return; }
      ResetPass(t0, t1);
      passesDone, timeBase, mode := 0, 0, Running;
    }

    method StopExecution()
      requires Valid()
      modifies `mode
      ensures Valid() && View() == Stop(old(View()))
    {
      mode := Idle;
    }

    method ClearRecorded()
      requires Valid()
      modifies `recorded, `capacity, `next
      ensures Valid() && fresh(recorded)
      ensures View() == ClearSamples(old(View()))
    {
      next, recorded, capacity := 0, new Sample[0], 0;
    }

    method RecordSample(timestamp: u32, joints: seq<real>)
      requires Valid()
      modifies `next, recorded
      ensures Valid() && View() == Record(old(View()), timestamp, joints)
    {
      if next >= capacity { return; }
      recorded[next] := Sample(timestamp, joints);
      next := next + 1;
    }

    /** Tick: does nothing unless running. */
    method UpdateAt(now: u32)
      requires Valid()
      requires mode == Running ==> manifest != null && Steppable(View(), manifest.samples)
      modifies `mode, `index, `target, `start, `lastWrite, `next, `position, `passesDone, `timeBase, recorded, Bus()
      ensures Valid()
      ensures View() == Update(old(View()), old(Waypoints()), old(Wiring()), now).0
      ensures Sent() == old(Sent()) + Pulses(Update(old(View()), old(Waypoints()), old(Wiring()), now).1)
      ensures var written := Update(old(View()), old(Waypoints()), old(Wiring()), now).1;
              written.Some? ==> ArmAt(Sent(), written.value) && (passesDone == old(passesDone) || mode != Running ==> position == written.value)
    {
      WriteMovesArm(View(), Waypoints(), Wiring(), now, Sent());
      if mode != Running { return; }
      StepExecution(now);
    }

    method StepExecution(now: u32)
      requires Valid() && mode == Running && manifest != null && Steppable(View(), manifest.samples)
      modifies `mode, `index, `target, `start, `lastWrite, `next, `position, `passesDone, `timeBase, recorded, Bus()
      ensures Valid()
      ensures View() == StepTo(old(View()), old(Waypoints()), old(Wiring()), now).0
      ensures Sent() == old(Sent()) + Pulses(StepTo(old(View()), old(Waypoints()), old(Wiring()), now).1)
    {
      ghost var before, ws, wiring := View(), manifest.samples, Wiring();
      ghost var written := ConsumeAndWrite(now);
      StepIs(before, ws, wiring, now, View(), written);
      ClosePass(now);
    }

    static lemma StepIs(e: Exec, ws: seq<Waypoint>, d: Drive, now: u32, a: Exec, written: Option<seq<real>>)
      requires (a, written) == Acted(e, ws, d, now)
      ensures StepTo(e, ws, d, now) == (EndPass(a, ws, now), written)
    {
    }

    /** Records what fell due, then makes one bounded move towards the last waypoint of it. */
    method ConsumeAndWrite(now: u32) returns (ghost written: Option<seq<real>>)
      requires Valid() && mode == Running && manifest != null && Steppable(View(), manifest.samples)
      modifies `index, `target, `next, `position, `lastWrite, recorded, Bus()
      ensures Valid()
      ensures (View(), written) == Acted(old(View()), old(Waypoints()), old(Wiring()), now)
      ensures Sent() == old(Sent()) + Pulses(written)
    {
      var elapsed := Sub32(now, lastWrite);
      if elapsed > MAX_ADVANCE_ELAPSED { elapsed := MAX_ADVANCE_ELAPSED; }
      var reached := ConsumeReady(now);
      written := None;
      assert Wiring() == old(Wiring());
      if reached.Some? { written := WriteTowards(reached.value.joints, elapsed, now); }
    }

    /** Consumption, after which the update has at most the move to the waypoint reached left to make. */
    method ConsumeReady(now: u32) returns (reached: Option<Waypoint>)
      requires Valid() && manifest != null && Steppable(View(), manifest.samples)
      modifies `index, `target, `next, recorded
      ensures Valid() && position == old(position)
      ensures reached.None? ==> Acted(old(View()), old(Waypoints()), old(Wiring()), now) == (View(), None)
      ensures reached.Some? ==>
                && |Actuated(reached.value.joints)| == |position|
                && Acted(old(View()), old(Waypoints()), old(Wiring()), now)
                   == Actuate(View(), reached.value.joints, old(Wiring()), Elapsed(old(View()), now), now)
    {
      ghost var before, ws := View(), manifest.samples;
      var since := Sub32(now, start);
      ConsumeShape(before, ws, since);
      reached := ConsumeDue(since);
      if reached.Some? {
        ActedOn(before, ws, Wiring(), now, since, View(), reached.value.joints, Elapsed(before, now));
      } else {
        ActedNot(before, ws, Wiring(), now, since, View());
      }
    }

    /** Consumes the waypoints that are due and returns the last of them. */
    method ConsumeDue(since: u32) returns (reached: Option<Waypoint>)
      requires Valid() && manifest != null && index <= |manifest.samples|
      modifies `index, `target, `next, recorded
      ensures Valid() && View() == Consume(old(View()), manifest.samples, since)
      ensures old(index) <= index <= |manifest.samples|
      ensures reached == if index > old(index) then Some(manifest.samples[index - 1]) else None
    {
      ghost var goal := Consume(View(), manifest.samples, since);
      var zeroDtChain := false;
      reached := None;
      while index < |manifest.samples|
        invariant Valid()
        invariant old(index) <= index <= |manifest.samples|
        invariant reached == if index > old(index) then Some(manifest.samples[index - 1]) else None
        invariant goal == if zeroDtChain then View() else Consume(View(), manifest.samples, since)
        decreases |manifest.samples| - index
      {
        if since < target { break; }
        if zeroDtChain { break; }
        reached := Some(manifest.samples[index]);
        zeroDtChain := ConsumeNext();
      }
    }

    /** Consumes one waypoint; the result says whether the next one carries dt 0. */
    method ConsumeNext() returns (zeroDtChain: bool)
      requires Valid() && manifest != null && index < |manifest.samples|
      modifies `index, `target, `next, recorded
      ensures Valid() && View() == ConsumeOne(old(View()), manifest.samples)
      ensures zeroDtChain <==> index < |manifest.samples| && manifest.samples[index].dt == 0
    {
      RecordSample(Add32(timeBase, target), manifest.samples[index].joints);
      index, zeroDtChain := index + 1, false;
      if index < |manifest.samples| {
        target := Add32(target, manifest.samples[index].dt);
        zeroDtChain := manifest.samples[index].dt == 0;
      }
    }

    /** Sends the arm towards the goal if there is an enabled driver; only an accepted write counts. */
    method WriteTowards(goal: seq<real>, elapsed: u32, now: u32) returns (ghost written: Option<seq<real>>)
      requires Valid() && |Actuated(goal)| == |position|
      modifies `position, `lastWrite, Bus()
      ensures (View(), written) == Actuate(old(View()), goal, old(Wiring()), elapsed, now)
      ensures Sent() == old(Sent()) + Pulses(written)
    {
      written := None;
      if servo != null && servo.enabled {
        var bounded := BoundedMove(goal, elapsed);
        var ok := servo.Write(bounded);
        if ok {
          position, lastWrite := bounded, now;
          written := Some(bounded);
        }
      }
    }

    /** Moves a copy of the position towards the goal, channel by channel. */
    method BoundedMove(goal: seq<real>, elapsed: u32) returns (bounded: seq<real>)
      requires |Actuated(goal)| == |position|
      ensures bounded == Bounded(position, goal, elapsed)
    {
      bounded := position;
      for ch := 0 to Min(|goal|, CHANNELS)
        invariant |bounded| == |position|
        invariant forall k | 0 <= k < |position| ::
                    bounded[k] == if k < ch then Toward(k, position[k], goal[k], elapsed) else position[k]
      {
        var delta := goal[ch] - bounded[ch];
        var limit := MaxAdvance(ch, elapsed);
        if AbsReal(delta) > limit {
          delta := if delta > 0.0 then limit else -limit;
        }
        bounded := bounded[ch := bounded[ch] + delta];
      }
      forall k | 0 <= k < |position|
        ensures bounded[k] == Bounded(position, goal, elapsed)[k]
      {
        BoundedAt(position, goal, elapsed, k);
      }
    }

    /** Ends the pass when its last waypoint is consumed: the next pass, or done. */
    method ClosePass(now: u32)
      requires Valid() && manifest != null
      modifies `mode, `index, `target, `start, `lastWrite, `next, `position, `passesDone, `timeBase
      ensures Valid() && View() == EndPass(old(View()), manifest.samples, now)
    {
      if index >= |manifest.samples| {
        passesDone := passesDone + 1;
        if passesDone < repeatTotal {
          ResetPass(now, now);
          timeBase := Add32(timeBase, passDuration);
        } else {
          mode := Done;
        }
      }
    }

    // ----- Queries -----

    method IsComplete() returns (done: bool)
      ensures done <==> View().mode == Done
    {
      done := mode == Done;
    }

    method CurrentProgress() returns (fraction: real)
      requires repeatTotal > 0
      ensures fraction == Progress(View(), Waypoints())
    {
      if manifest == null || manifest.samples == [] { return 0.0; }
      var n := |manifest.samples|;
      if index >= n { return passesDone as real / repeatTotal as real; }
      var passFraction := index as real / n as real;
      return (passesDone as real + passFraction) / repeatTotal as real;
    }

    method CommandedJoints() returns (joints: seq<real>)
      ensures joints == CurrentJoints(View(), Waypoints())
    {
      if mode != Running || manifest == null || index >= |manifest.samples| { return []; }
      return manifest.samples[index].joints;
    }
  }
}
