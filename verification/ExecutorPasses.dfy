/** The speed limit where an execution or a pass begins: firmware/esp32/src/executor.cpp:63-86 and 243-272. */
module ExecutorPasses {
  import opened Prelude
  import opened Words
  import opened Manifests
  import opened ServoSafety
  import opened Servos
  import opened Validators
  import opened ExecutorModel
  import opened ExecutorScheduling
  import opened ExecutorMotion
  import opened ExecutorTracking

  // ----- A reset to the first waypoint -----

  /** Whatever its time, the next update sends the arm no further from the pose `p` than its top speed allows. */
  ghost predicate ReachesFrom(p: seq<real>, u: Exec, ws: seq<Waypoint>, d: Drive)
  {
    forall t: u32 :: Update(u, ws, d, t).1.Some? ==> WithinReach(p, Update(u, ws, d, t).1.value, Elapsed(u, t))
  }

  /** The stepper is at the beginning of a pass and nothing has been written in it. */
  predicate AtPassStart(u: Exec, ws: seq<Waypoint>)
  {
    u.mode == Running && Safe(u, ws) && u.index == 0 && u.target == 0 && u.position == Home(ws)
  }

  /** The next update sends the arm to within reach of the first waypoint, where the stepper believes it is. */
  lemma NextWrite(u: Exec, ws: seq<Waypoint>, d: Drive, t: u32)
    requires u.mode == Running && Safe(u, ws)
    ensures Update(u, ws, d, t).1.Some? ==> WithinReach(u.position, Update(u, ws, d, t).1.value, Elapsed(u, t))
  {
    UpdateSpeed(u, ws, d, t);
    ActedIsSafe(u, ws, d, t);
  }

  lemma NoTimeNoMove(from: seq<real>, to: seq<real>)
    requires WithinReach(from, to, 0) && |from| <= CHANNELS
    ensures from == to
  {
  }

  /** The reset is not a move: wherever the arm was last sent, the speed limit holds into the pass if and
      only if that was the first waypoint. */
  lemma ResetKeepsSpeedIff(p: seq<real>, u: Exec, ws: seq<Waypoint>, d: Drive)
    requires AtPassStart(u, ws) && d.Ready() && |u.position| >= CHANNELS
    ensures ReachesFrom(p, u, ws, d) <==> p == Home(ws)
  {
    if ReachesFrom(p, u, ws, d) {
      var now := u.lastWrite;
      NextWrite(u, ws, d, now);
      UpdateIsSafe(u, ws, d, now);
      assert Elapsed(u, now) == 0 && Due(u, ws, Sub32(now, u.start));
      NoTimeNoMove(u.position, Update(u, ws, d, now).1.value);
      NoTimeNoMove(p, Update(u, ws, d, now).1.value);
    }
    if p == Home(ws) {
      forall t: u32 | Update(u, ws, d, t).1.Some?
        ensures WithinReach(p, Update(u, ws, d, t).1.value, Elapsed(u, t))
      {
        NextWrite(u, ws, d, t);
      }
    }
  }

  /** At least one waypoint, and each with all four joints inside the envelope. */
  predicate AllPosed(ws: seq<Waypoint>)
  {
    ws != [] && forall i | 0 <= i < |ws| :: FullyPosed(ws[i])
  }

  /** Across EXECUTE: an arm last sent to `p` is moved within its top speed if and only if `p` is the
      first waypoint. */
  lemma SpeedAcrossStartIff(p: seq<real>, e: Exec, ws: seq<Waypoint>, d: Drive, t0: u32, t1: u32)
    requires e.loaded && e.repeatTotal > 0 && AllPosed(ws) && d.Ready()
    ensures ReachesFrom(p, Start(e, ws, t0, t1), ws, d) <==> p == Home(ws)
  {
    StartIsPassStart(e, ws, t0, t1);
    ResetKeepsSpeedIff(p, Start(e, ws, t0, t1), ws, d);
  }

  lemma StartIsPassStart(e: Exec, ws: seq<Waypoint>, t0: u32, t1: u32)
    requires e.loaded && e.repeatTotal > 0 && AllPosed(ws)
    ensures AtPassStart(Start(e, ws, t0, t1), ws) && |Home(ws)| == CHANNELS
  {
    HomeInEnvelope(ws);
  }

  // ----- The boundary of two passes -----

  /** This update consumes the last waypoint of a pass that is not the last. */
  predicate ClosesPass(e: Exec, ws: seq<Waypoint>, d: Drive, now: u32)
  {
    var u := Update(e, ws, d, now).0;
    e.mode == Running && u.mode == Running && u.passesDone > e.passesDone
  }

  /** The speed limit carries over from the last write of the pass into the next. */
  ghost predicate KeepsSpeed(e: Exec, ws: seq<Waypoint>, d: Drive, now: u32)
  {
    ReachesFrom(Acted(e, ws, d, now).0.position, Update(e, ws, d, now).0, ws, d)
  }

  lemma NextPassState(e: Exec, ws: seq<Waypoint>, d: Drive, now: u32)
    requires Safe(e, ws) && ClosesPass(e, ws, d, now)
    ensures var (a, u) := (Acted(e, ws, d, now).0, Update(e, ws, d, now).0);
            && AtPassStart(u, ws) && u.lastWrite == now && |a.position| == |u.position| == |e.position|
            && Due(e, ws, Sub32(now, e.start)) && a.index == |ws|
  {
    UpdateIsSafe(e, ws, d, now);
    ActedForm(e, ws, d, now);
    ConsumeShape(e, ws, Sub32(now, e.start));
  }

  /** The plan ends in the pose it begins with. */
  predicate Cyclic(ws: seq<Waypoint>) { ws != [] && Actuated(ws[|ws| - 1].joints) == Home(ws) }

  /** Where a punctual pass leaves the arm: within the lateness that its last write made up of the last waypoint. */
  lemma PassEnd(e: Exec, ws: seq<Waypoint>, d: Drive, now: u32, worst: nat)
    requires Followable(ws) && Safe(e, ws) && Tracks(e, ws, worst) && Punctual(e, d, now) && ClosesPass(e, ws, d, now)
    ensures var a := Acted(e, ws, d, now).0;
            && |a.position| == CHANNELS && a.index == |ws| > 0 && FullyPosed(ws[|ws| - 1]) && 0 <= Lateness(a, ws)
            && Near(a.position, ws[|ws| - 1].joints, Later(Lateness(a, ws), worst) - Lateness(a, ws))
  {
    NextPassState(e, ws, d, now);
    ActedTracks(e, ws, d, now, worst);
  }

  lemma NearestIsEqual(position: seq<real>, joints: seq<real>)
    requires |position| == CHANNELS <= |joints| && Near(position, joints, 0)
    ensures position == Actuated(joints)
  {
  }

  /** A followable plan, kept to punctually and with the last write of the pass at least as late as any
      other, keeps the speed limit into the next pass if and only if it ends where it begins. */
  lemma SpeedAcrossPassesIff(e: Exec, ws: seq<Waypoint>, d: Drive, now: u32, worst: nat)
    requires Followable(ws) && Safe(e, ws) && Tracks(e, ws, worst) && Punctual(e, d, now) && ClosesPass(e, ws, d, now)
    requires Reached(Acted(e, ws, d, now).0) < |ws| && Lateness(Acted(e, ws, d, now).0, ws) >= worst
    ensures KeepsSpeed(e, ws, d, now) <==> Cyclic(ws)
  {
    var a, u := Acted(e, ws, d, now).0, Update(e, ws, d, now).0;
    NextPassState(e, ws, d, now);
    PassEnd(e, ws, d, now, worst);
    NearestIsEqual(a.position, ws[|ws| - 1].joints);
    ResetKeepsSpeedIff(a.position, u, ws, d);
  }

  /** In any case the first write of the next pass moves the arm by no more than the way from the last
      waypoint to the first, and what the worst lateness of the pass and the time since leave to travel. */
  lemma BoundaryJump(e: Exec, ws: seq<Waypoint>, d: Drive, now: u32, worst: nat, t: u32, ch: Channel)
    requires Followable(ws) && Safe(e, ws) && Tracks(e, ws, worst) && Punctual(e, d, now) && ClosesPass(e, ws, d, now)
    requires Update(Update(e, ws, d, now).0, ws, d, t).1.Some?
    ensures var (a, u) := (Acted(e, ws, d, now).0, Update(e, ws, d, now).0);
            var sent := Update(u, ws, d, t).1.value;
            && |sent| == |a.position| == CHANNELS && |ws| > 0 && FullyPosed(ws[0]) && FullyPosed(ws[|ws| - 1]) && a.index == |ws|
            && AbsReal(sent[ch] - a.position[ch])
                 <= AbsReal(ws[0].joints[ch] - ws[|ws| - 1].joints[ch])
                    + MaxAdvance(ch, Later(Lateness(a, ws), worst) - Lateness(a, ws)) + MaxAdvance(ch, Elapsed(u, t))
  {
    NextPassState(e, ws, d, now);
    PassEnd(e, ws, d, now, worst);
    NextWrite(Update(e, ws, d, now).0, ws, d, t);
  }

  // ----- A plan that does not end where it begins -----

  const REST := [0.0, 0.0, 0.0, 0.0]
  const TURNED := [1.0, 0.0, 0.0, 0.0]

  /** A base turned by one radian in one second, and repeated. */
  const TURN := Plan(Metadata(4, 2, 1_000_000, 2), [Segment(0, MoveJ, 0, 2)], [Waypoint(REST, 0), Waypoint(TURNED, 1_000_000)])

  /** The validator accepts it and it asks for no more than top speed; loaded, started and updated on
      time to the microsecond, it is sent back at the boundary by the whole radian at once. */
  lemma PassBoundaryJumps(x: Exec)
    ensures var (ws, d) := (TURN.samples, Drive(true, true, true));
            var e := Updates(Start(Load(x, TURN), ws, 0, 0), ws, d, [0]);
            && Verdict(TURN) == Valid && Followable(ws)
            && Safe(e, ws) && ClosesPass(e, ws, d, 1_000_000) && !KeepsSpeed(e, ws, d, 1_000_000)
  {
    TurnIsValid(TURN);
    TurnJumps(Load(x, TURN), TURN.samples, Drive(true, true, true));
  }

  predicate IsTurn(ws: seq<Waypoint>) { ws == [Waypoint(REST, 0), Waypoint(TURNED, 1_000_000)] }

  lemma TurnIsValid(m: Plan)
    requires m.meta == Metadata(4, 2, 1_000_000, 2) && m.segments == [Segment(0, MoveJ, 0, 2)] && IsTurn(m.samples)
    ensures Verdict(m) == Valid
  {
    assert m.samples[..1] == [Waypoint(REST, 0)] && m.samples[..1][..0] == [];
    assert TotalTime(m.samples[..1]) == 0;
    assert TotalTime(m.samples) == 1_000_000;
    assert m.segments[1..] == [];
    assert CoverageScan(m.segments, 0) == CoverageScan([], 2);
  }

  lemma TurnIsFollowable(ws: seq<Waypoint>)
    requires IsTurn(ws)
    ensures Followable(ws) && PassLength(ws) == 1_000_000 && !Cyclic(ws)
  {
    assert Offset(ws, 1) == 1_000_000;
    assert MaxAdvance(0, 1_000_000) == 1.0;
    assert FullyPosed(ws[0]) && FullyPosed(ws[1]);
    assert SlowGap(ws, 1);
    assert Actuated(TURNED)[0] == 1.0 && Home(ws)[0] == 0.0;
  }

  lemma TurnFirst(s: Exec, ws: seq<Waypoint>, d: Drive)
    requires IsTurn(ws) && s.mode == Running && s.index == s.target == s.start == s.lastWrite == 0 && s.next == 0 && |s.slots| == 2
    ensures var e := Update(s, ws, d, 0).0;
            && e.mode == Running && e.index == 1 && e.target == 1_000_000 && e.start == e.lastWrite == 0
            && e.passesDone == s.passesDone && e.repeatTotal == s.repeatTotal && e.next == 1 && |e.slots| == 2
  {
    var r := ConsumeOne(s, ws);
    assert Due(s, ws, 0) && r.index == 1 && r.target == 1_000_000 && !Due(r, ws, 0);
    assert Consume(r, ws, 0) == r;
    assert Consume(s, ws, 0) == r;
    ActedForm(s, ws, d, 0);
  }

  lemma TurnSecond(e: Exec, ws: seq<Waypoint>, d: Drive)
    requires IsTurn(ws) && e.mode == Running && e.index == 1 && e.target == 1_000_000 && e.start == e.lastWrite == 0
    requires e.passesDone == 0 && e.repeatTotal == 2 && e.next == 1 && |e.slots| == 2
    ensures ClosesPass(e, ws, d, 1_000_000)
  {
    var r, since := ConsumeOne(e, ws), Sub32(1_000_000, e.start);
    assert Due(e, ws, since) && r.index == 2 && !Due(r, ws, since);
    assert Consume(r, ws, since) == r;
    assert Consume(e, ws, since) == r;
    ActedForm(e, ws, d, 1_000_000);
  }

  lemma TurnOnTime(s: Exec, ws: seq<Waypoint>, d: Drive)
    requires IsTurn(ws) && Followable(ws) && s.mode == Running && s.start == s.lastWrite == 0 && d.Ready()
    requires Safe(s, ws) && Tracks(s, ws, 0) && s.index == 0 && Update(s, ws, d, 0).0.passesDone == s.passesDone
    ensures Safe(Update(s, ws, d, 0).0, ws) && Tracks(Update(s, ws, d, 0).0, ws, 0)
  {
    UpdateTracks(s, ws, d, 0, 0);
    ActedForm(s, ws, d, 0);
  }

  lemma TurnJumps(x: Exec, ws: seq<Waypoint>, d: Drive)
    requires IsTurn(ws) && d == Drive(true, true, true) && x.loaded && x.repeatTotal == 2 && |x.slots| == 2
    ensures var e := Updates(Start(x, ws, 0, 0), ws, d, [0]);
            Followable(ws) && Safe(e, ws) && ClosesPass(e, ws, d, 1_000_000) && !KeepsSpeed(e, ws, d, 1_000_000)
  {
    var s := Start(x, ws, 0, 0);
    assert [0][1..] == [] && Updates(s, ws, d, [0]) == Update(s, ws, d, 0).0;
    TurnIsFollowable(ws);
    StartTracks(x, ws, 0, 0);
    TurnFirst(s, ws, d);
    TurnOnTime(s, ws, d);
    var e := Update(s, ws, d, 0).0;
    TurnSecond(e, ws, d);
    PassEnd(e, ws, d, 1_000_000, 0);
    SpeedAcrossPassesIff(e, ws, d, 1_000_000, 0);
  }
}
