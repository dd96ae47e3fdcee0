/** Where the arm may be: the envelope, the speed limit and the tracking error of the stepper. */
module ExecutorMotion {
  import opened Prelude
  import opened Words
  import opened Manifests
  import opened ServoSafety
  import opened Servos
  import opened ExecutorModel
  import opened ExecutorScheduling

  // ----- One channel -----

  lemma AdvanceMonotone(ch: Channel, a: nat, b: nat)
    requires a <= b
    ensures 0.0 <= MaxAdvance(ch, a) <= MaxAdvance(ch, b)
  {
  }

  lemma AdvanceAdds(ch: Channel, a: nat, b: nat)
    ensures MaxAdvance(ch, a) + MaxAdvance(ch, b) == MaxAdvance(ch, a + b)
  {
  }

  /** A bounded move goes towards its goal, never past it and never further than the limit. */
  lemma TowardGoal(ch: Channel, from: real, goal: real, elapsed: nat)
    ensures var to := Toward(ch, from, goal, elapsed);
            && AbsReal(to - from) <= MaxAdvance(ch, elapsed)
            && (from <= goal ==> from <= to <= goal) && (goal <= from ==> goal <= to <= from)
            && AbsReal(goal - to) == MaxReal(0.0, AbsReal(goal - from) - MaxAdvance(ch, elapsed))
  {
  }

  /** The speed limit in radians, or metres, per second: a second of travel is the top speed of the channel, and travel is
      proportional to time. */
  lemma SpeedInUnits(ch: Channel, elapsed: nat)
    ensures MaxAdvance(0, 1_000_000) == 1.0 && MaxAdvance(1, 1_000_000) == 1.0
    ensures MaxAdvance(2, 1_000_000) == 2.0 && MaxAdvance(3, 1_000_000) == 0.5
    ensures MaxAdvance(ch, elapsed) * 1000000.0 == MaxAdvance(ch, 1_000_000) * elapsed as real
  {
  }

  // ----- Envelope -----

  /** A running executor whose position and waypoints all lie in the envelope. */
  predicate Safe(e: Exec, ws: seq<Waypoint>)
  {
    && InEnvelope(e.position)
    && (forall i | 0 <= i < |ws| :: InEnvelope(ws[i].joints))
    && (e.mode == Running ==> Steppable(e, ws))
  }

  /** The envelope is convex: a bounded move between two points inside stays inside. */
  lemma BoundedInEnvelope(position: seq<real>, goal: seq<real>, elapsed: nat)
    requires InEnvelope(position) && InEnvelope(goal)
    ensures InEnvelope(Bounded(position, goal, elapsed))
  {
  }

  lemma HomeInEnvelope(ws: seq<Waypoint>)
    requires forall i | 0 <= i < |ws| :: InEnvelope(ws[i].joints)
    ensures InEnvelope(Home(ws))
  {
  }

  /** The driver's envelope check never refuses a move of the stepper: a ready driver
      accepts it as soon as all four joints are there. */
  lemma ActuateIsSafe(c: Exec, goal: seq<real>, d: Drive, elapsed: nat, now: u32)
    requires InEnvelope(c.position) && InEnvelope(goal)
    ensures var (a, written) := Actuate(c, goal, d, elapsed, now);
            && InEnvelope(a.position) && |a.position| == |c.position|
            && (written.Some? <==> d.Ready() && |c.position| >= CHANNELS)
            && (written.Some? ==> written.value == a.position)
  {
    BoundedInEnvelope(c.position, goal, elapsed);
  }

  /** What consumption and actuation change: with a write, the position and the write clock. */
  lemma ActedForm(e: Exec, ws: seq<Waypoint>, d: Drive, now: u32)
    requires e.index <= |ws| && e.next <= |e.slots|
    ensures var (a, written) := Acted(e, ws, d, now);
            var c := Consume(e, ws, Sub32(now, e.start));
            && c.mode == e.mode && c.passesDone == e.passesDone && c.position == e.position
            && c.start == e.start && c.lastWrite == e.lastWrite && c.repeatTotal == e.repeatTotal
            && (written.None? ==> a == c)
            && (written.Some? ==>
                  && e.index < c.index <= |ws|
                  && a == c.(position := Bounded(e.position, ws[c.index - 1].joints, Elapsed(e, now)), lastWrite := now))
  {
    var since := Sub32(now, e.start);
    var c := Consume(e, ws, since);
    ConsumeShape(e, ws, since);
    if c.index > e.index {
      WrittenForm(e, ws, d, now, since, c, ws[c.index - 1].joints, Elapsed(e, now));
    } else {
      ActedNot(e, ws, d, now, since, c);
    }
  }

  lemma WrittenForm(e: Exec, ws: seq<Waypoint>, d: Drive, now: u32, since: u32, c: Exec, goal: seq<real>, elapsed: u32)
    requires since == Sub32(now, e.start) && c == Consume(e, ws, since) && elapsed == Elapsed(e, now)
    requires e.index < c.index <= |ws| && goal == ws[c.index - 1].joints
    ensures var (a, written) := Acted(e, ws, d, now);
            a == if written.Some? then c.(position := Bounded(c.position, goal, elapsed), lastWrite := now) else c
  {
    ActedOn(e, ws, d, now, since, c, goal, elapsed);
  }

  lemma ActedIsSafe(e: Exec, ws: seq<Waypoint>, d: Drive, now: u32)
    requires e.mode == Running && Safe(e, ws)
    ensures var (a, written) := Acted(e, ws, d, now);
            && InEnvelope(a.position)
            && (written.Some? <==> Due(e, ws, Sub32(now, e.start)) && d.Ready() && |e.position| >= CHANNELS)
            && (written.Some? ==> written.value == a.position)
  {
    var c := Consume(e, ws, Sub32(now, e.start));
    ConsumeShape(e, ws, Sub32(now, e.start));
    if c.index > e.index { ActuateIsSafe(c, ws[c.index - 1].joints, d, Elapsed(e, now), now); }
  }

  /** One update keeps the position inside the envelope. It writes to the servos exactly when a
      waypoint fell due and a ready driver has all four joints, and what it writes is in the envelope. */
  lemma UpdateIsSafe(e: Exec, ws: seq<Waypoint>, d: Drive, now: u32)
    requires e.mode == Running && Safe(e, ws)
    ensures var (u, written) := Update(e, ws, d, now);
            && Safe(u, ws)
            && (written.Some? <==> Due(e, ws, Sub32(now, e.start)) && d.Ready() && |e.position| >= CHANNELS)
            && (written.Some? ==> |written.value| >= CHANNELS && InEnvelope(written.value))
  {
    ActedIsSafe(e, ws, d, now);
    UpdateKeepsShape(e, ws, d, now);
    HomeInEnvelope(ws);
  }

  // ----- Speed -----

  predicate WithinReach(from: seq<real>, to: seq<real>, elapsed: nat)
  {
    && |from| == |to|
    && forall ch: Channel | ch < |from| :: AbsReal(to[ch] - from[ch]) <= MaxAdvance(ch, elapsed)
  }

  /** One update moves each joint by no more than its top speed allows in the time since the
      last write, whatever the wrapping clock reads. */
  lemma UpdateSpeed(e: Exec, ws: seq<Waypoint>, d: Drive, now: u32)
    requires e.mode == Running && Steppable(e, ws)
    ensures WithinReach(e.position, Acted(e, ws, d, now).0.position, Elapsed(e, now))
  {
    ConsumeShape(e, ws, Sub32(now, e.start));
    var c := Consume(e, ws, Sub32(now, e.start));
    forall ch: Channel | ch < |e.position|
      ensures AbsReal(Acted(e, ws, d, now).0.position[ch] - e.position[ch]) <= MaxAdvance(ch, Elapsed(e, now))
    {
      AdvanceMonotone(ch, 0, Elapsed(e, now));
      if c.index > e.index { BoundedAt(e.position, ws[c.index - 1].joints, Elapsed(e, now), ch); }
      if c.index > e.index && ch < |ws[c.index - 1].joints| {
        TowardGoal(ch, e.position[ch], ws[c.index - 1].joints[ch], Elapsed(e, now));
      }
    }
  }

  /** However long the arm was left alone, one update moves it no further than an hour of travel. */
  lemma HourOfTravel(e: Exec, ws: seq<Waypoint>, d: Drive, now: u32)
    requires e.mode == Running && Steppable(e, ws)
    ensures WithinReach(e.position, Acted(e, ws, d, now).0.position, 3_600_000_000)
  {
    UpdateSpeed(e, ws, d, now);
    ReachWidens(e.position, Acted(e, ws, d, now).0.position, Elapsed(e, now), 3_600_000_000);
  }

  /** Reach over two consecutive spans of time is reach over both. */
  lemma ReachComposes(a: seq<real>, b: seq<real>, c: seq<real>, t0: nat, t1: nat, t2: nat)
    requires t0 <= t1 <= t2 && WithinReach(a, b, t1 - t0) && WithinReach(b, c, t2 - t1)
    ensures WithinReach(a, c, t2 - t0)
  {
  }

  lemma ReachWidens(a: seq<real>, b: seq<real>, s: nat, t: nat)
    requires WithinReach(a, b, s) && s <= t
    ensures WithinReach(a, b, t)
  {
  }

  /** No pass began between the two states. */
  predicate SamePass(e: Exec, u: Exec)
  {
    u.passesDone == e.passesDone || (u.mode == Done && u.passesDone == e.passesDone + 1)
  }

  predicate Ordered(from: u32, times: seq<u32>)
    decreases |times|
  {
    times == [] || (from <= times[0] && Ordered(times[0], times[1..]))
  }

  lemma {:induction false} LastWriteBounded(from: u32, times: seq<u32>, lastWrite: u32)
    requires lastWrite <= from && Ordered(from, times)
    ensures Ordered(lastWrite, times)
  {
  }

  /** If no pass began during a run, none began in its first update or in the rest. */
  lemma FirstStepSamePass(e: Exec, ws: seq<Waypoint>, d: Drive, times: seq<u32>)
    requires Active(e, ws) && e.mode != Idle && times != []
    requires SamePass(e, Updates(e, ws, d, times))
    ensures var f := Update(e, ws, d, times[0]).0;
            && Active(f, ws) && f.mode != Idle
            && SamePass(e, f) && SamePass(f, Updates(f, ws, d, times[1..]))
  {
    var f := Update(e, ws, d, times[0]).0;
    UpdateKeepsActive(e, ws, d, times[0]);
    UpdatesKeepActive(f, ws, d, times[1..]);
    if f.mode == Done { DoneStays(f, ws, d, times[1..]); }
  }

  lemma StretchStep(e: Exec, ws: seq<Waypoint>, d: Drive, times: seq<u32>)
    requires Active(e, ws) && e.mode != Idle && times != [] && Ordered(e.lastWrite, times)
    requires SamePass(e, Updates(e, ws, d, times))
    ensures var f := Update(e, ws, d, times[0]).0;
            && Active(f, ws) && f.mode != Idle && Ordered(f.lastWrite, times[1..])
            && Updates(f, ws, d, times[1..]) == Updates(e, ws, d, times)
            && SamePass(f, Updates(e, ws, d, times))
            && e.lastWrite <= f.lastWrite
            && WithinReach(e.position, f.position, f.lastWrite - e.lastWrite)
  {
    FirstStepSamePass(e, ws, d, times);
    SpeedOfStep(e, ws, d, times[0]);
    LastWriteBounded(times[0], times[1..], Update(e, ws, d, times[0]).0.lastWrite);
  }

  /** The speed limit over any stretch of a pass: between two states with no pass boundary
      between them, each joint moves no further than top speed allows in the time between
      the two last writes, however the updates in between were scheduled or delayed. */
  lemma {:induction false} SpeedOverStretch(e: Exec, ws: seq<Waypoint>, d: Drive, times: seq<u32>)
    requires Active(e, ws) && e.mode != Idle && Ordered(e.lastWrite, times)
    requires SamePass(e, Updates(e, ws, d, times))
    ensures var u := Updates(e, ws, d, times);
            && e.lastWrite <= u.lastWrite
            && WithinReach(e.position, u.position, u.lastWrite - e.lastWrite)
    decreases |times|
  {
    if times == [] {
      StayingPut(e.position);
    } else {
      var f, u := Update(e, ws, d, times[0]).0, Updates(e, ws, d, times);
      StretchStep(e, ws, d, times);
      SpeedOverStretch(f, ws, d, times[1..]);
      ReachComposes(e.position, f.position, u.position, e.lastWrite, f.lastWrite, u.lastWrite);
    }
  }

  /** Closing an update without starting a pass leaves the arm and its write clock alone. */
  lemma EndPassKeepsPosition(a: Exec, ws: seq<Waypoint>, now: u32)
    requires a.mode == Running && SamePass(a, EndPass(a, ws, now))
    ensures EndPass(a, ws, now).position == a.position && EndPass(a, ws, now).lastWrite == a.lastWrite
  {
  }

  lemma SpeedOfStep(e: Exec, ws: seq<Waypoint>, d: Drive, now: u32)
    requires Active(e, ws) && e.mode != Idle && e.lastWrite <= now
    requires SamePass(e, Update(e, ws, d, now).0)
    ensures var f := Update(e, ws, d, now).0;
            && e.lastWrite <= f.lastWrite <= now
            && WithinReach(e.position, f.position, f.lastWrite - e.lastWrite)
  {
    StayingPut(e.position);
    if e.mode == Running {
      var f := Update(e, ws, d, now).0;
      WriteOrStay(e, ws, d, now);
      if f.lastWrite == now { ReachWidens(e.position, f.position, Elapsed(e, now), now - e.lastWrite); }
    }
  }

  /** Within a pass an update either writes, and moves no further than the speed limit, or leaves the arm alone. */
  lemma WriteOrStay(e: Exec, ws: seq<Waypoint>, d: Drive, now: u32)
    requires Active(e, ws) && e.mode == Running && SamePass(e, Update(e, ws, d, now).0)
    ensures var f := Update(e, ws, d, now).0;
            && WithinReach(e.position, f.position, Elapsed(e, now))
            && (f.lastWrite == now || (f.lastWrite == e.lastWrite && f.position == e.position))
  {
    ActedForm(e, ws, d, now);
    EndPassKeepsPosition(Acted(e, ws, d, now).0, ws, now);
    UpdateSpeed(e, ws, d, now);
  }

  lemma StayingPut(position: seq<real>)
    ensures WithinReach(position, position, 0)
  {
  }
}
