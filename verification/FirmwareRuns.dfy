/** Whole executions of the firmware, from the commands a host sends: firmware/esp32/src/protocol.cpp and executor.cpp. */
module FirmwareRuns {
  import opened Prelude
  import opened Words
  import opened Manifests
  import opened ServoSafety
  import opened Servos
  import opened Validators
  import opened ExecutorModel
  import opened ExecutorScheduling
  import opened ExecutorTrace
  import opened ExecutorMotion
  import opened ExecutorTracking
  import opened ExecutorClock
  import opened ExecutorPasses
  import opened ProtocolModel
  import opened Wire
  import opened FirmwareModel

  // ----- Tracking, from EXECUTE on -----

  lemma ExecuteTurn(s: System, d: Drive, tick: Tick)
    requires Inv(s) && s.p.state == Ready && tick.command == Some(Execute)
    ensures var x := Start(s.x, s.p.plan.samples, tick.t0, tick.t1);
            && LoopStep(s, d, tick).0 == System(s.p.(state := Executing), Update(x, s.p.plan.samples, d, tick.now).0)
            && x.mode == Running && s.x.loaded && s.x.repeatTotal > 0
            && Active(x, s.p.plan.samples) && Safe(x, s.p.plan.samples)
  {
    StartIsSafe(s.x, s.p.plan, tick.t0, tick.t1);
  }

  lemma ExecuteRunIsUpdates(s: System, d: Drive, tick: Tick, ticks: seq<Tick>)
    requires Inv(s) && s.p.state == Ready && tick.command == Some(Execute)
    requires forall i | 0 <= i < |ticks| :: Quiet(ticks[i].command)
    ensures Run(s, d, [tick] + ticks).0.x
         == Updates(Start(s.x, s.p.plan.samples, tick.t0, tick.t1), s.p.plan.samples, d, [tick.now] + Clock(ticks))
  {
    ExecuteTurn(s, d, tick);
    LoopKeepsInv(s, d, tick);
    QuietRunIsUpdates(LoopStep(s, d, tick).0, d, ticks);
    assert ([tick] + ticks)[1..] == ticks && ([tick.now] + Clock(ticks))[1..] == Clock(ticks);
  }

  /** From the EXECUTE turn on, while only status polls and greetings arrive and the turns are punctual, each joint of a
      followable upload is within the tracking bound of the waypoint last consumed: pass beginnings, lateness and
      punctuality are told by the readings of the turns. */
  lemma FirmwareTracks(s: System, d: Drive, tick: Tick, ticks: seq<Tick>)
    requires Inv(s) && s.p.state == Ready && tick.command == Some(Execute)
    requires forall i | 0 <= i < |ticks| :: Quiet(ticks[i].command)
    requires Followable(s.p.plan.samples)
    requires PunctualFrom(s.x, s.p.plan.samples, d, tick.t0, tick.t1, [tick.now] + Clock(ticks))
    ensures TracksFrom(s.x, s.p.plan.samples, d, tick.t0, tick.t1, [tick.now] + Clock(ticks))
    ensures Run(s, d, [tick] + ticks).0.x
         == Updates(Start(s.x, s.p.plan.samples, tick.t0, tick.t1), s.p.plan.samples, d, [tick.now] + Clock(ticks))
  {
    ReadyIsLoaded(s);
    ExecuteRunIsUpdates(s, d, tick, ticks);
    TrackingByReadings(s.x, s.p.plan.samples, d, tick.t0, tick.t1, [tick.now] + Clock(ticks));
  }

  lemma ReadyIsLoaded(s: System)
    requires Inv(s) && s.p.state == Ready
    ensures s.x.loaded && s.x.repeatTotal > 0 && s.p.plan.samples != []
  {
  }

  /** And the turn after them, at the reading `now`, consumes waypoint `k` of the pass under way if and only if its
      planned instant has come since the turn that began the pass, and no waypoint up to it but the next has dt 0. */
  lemma FirmwareFallsDueIff(s: System, d: Drive, tick: Tick, ticks: seq<Tick>, now: u32, k: nat)
    requires Inv(s) && s.p.state == Ready && tick.command == Some(Execute) && PassLength(s.p.plan.samples) < WORD
    requires forall i | 0 <= i < |ticks| :: Quiet(ticks[i].command)
    requires Run(s, d, [tick] + ticks).0.x.mode == Running && Run(s, d, [tick] + ticks).0.x.index <= k < |s.p.plan.samples|
    ensures var (x, ws, times) := (Start(s.x, s.p.plan.samples, tick.t0, tick.t1), s.p.plan.samples, [tick.now] + Clock(ticks));
            var before := Run(s, d, [tick] + ticks).0.x;
            && (k < ConsumedInPass(before, Update(before, ws, d, now).0, ws)
                <==> && Offset(ws, k) <= Sub32(now, PassReading(x, ws, d, times, tick.t0))
                     && forall j | before.index < j <= k :: ws[j].dt > 0)
  {
    ExecuteTurn(s, d, tick);
    ExecuteRunIsUpdates(s, d, tick, ticks);
    ReadyIsEven(s);
    FallsDueIff(s.x, s.p.plan.samples, d, tick.t0, tick.t1, [tick.now] + Clock(ticks), now, k);
  }

  lemma ReadyIsEven(s: System)
    requires Inv(s) && s.p.state == Ready
    ensures s.p.plan.samples != [] && SameWidth(s.p.plan.samples)
  {
  }

  /** An arm last sent to `p` is moved within its top speed across EXECUTE if and only if `p` is the
      first waypoint of the upload, for an upload that drives all four joints. */
  lemma ExecuteKeepsSpeedIff(s: System, d: Drive, t0: u32, t1: u32, p: seq<real>)
    requires Inv(s) && s.p.state == Ready && s.p.plan.meta.dof >= CHANNELS && d.Ready()
    ensures var (t, _) := OnExecute(s, t0, t1);
            ReachesFrom(p, t.x, t.p.plan.samples, d) <==> p == Home(s.p.plan.samples)
  {
    SpeedAcrossStartIff(p, s.x, s.p.plan.samples, d, t0, t1);
  }

  // ----- What SAMPLES returns -----

  predicate Live(s: System) { s.p.state == Ready || s.p.state == Executing || s.p.state == Completed }

  /** The upload is neither stopped, nor replaced, nor lost to an error. */
  predicate StaysLive(s: System, d: Drive, ticks: seq<Tick>)
    requires Inv(s)
    decreases |ticks|
  {
    Live(s) && (ticks == [] || (
      LoopKeepsInv(s, d, ticks[0]);
      StaysLive(LoopStep(s, d, ticks[0]).0, d, ticks[1..])))
  }

  predicate Fetch(c: Option<Command>) { c.Some? && c.value.FetchSamples? }

  predicate Fetches(ticks: seq<Tick>) { exists i :: 0 <= i < |ticks| && Fetch(ticks[i].command) }

  /** A live turn keeps the upload, and the buffer's size unless it serves SAMPLES, which frees the buffer. */
  lemma LiveTurn(s: System, d: Drive, tick: Tick)
    requires Inv(s) && Live(s) && Live(LoopStep(s, d, tick).0)
    ensures LoopStep(s, d, tick).0.p.plan == s.p.plan
    ensures |LoopStep(s, d, tick).0.x.slots| == if Fetch(tick.command) then 0 else |s.x.slots|
  {
    var polled := Poll(s, tick.command, tick.t0, tick.t1).0;
    LivePoll(s, tick.command, tick.t0, tick.t1);
    PollKeepsInv(s, tick.command, tick.t0, tick.t1);
    if polled.x.mode == Running { UpdateFrame(polled.x, polled.p.plan.samples, d, tick.now); }
  }

  lemma LivePoll(s: System, c: Option<Command>, t0: u32, t1: u32)
    requires Inv(s) && Live(s) && Live(Poll(s, c, t0, t1).0)
    ensures Poll(s, c, t0, t1).0.p.plan == s.p.plan
    ensures |Poll(s, c, t0, t1).0.x.slots| == if Fetch(c) then 0 else |s.x.slots|
  {
    if c.Some? { LiveDispatch(NoticeCompletion(s), c.value, t0, t1); }
  }

  lemma LiveDispatch(s: System, c: Command, t0: u32, t1: u32)
    requires Wellformed(s) && Live(s) && Live(Dispatch(s, c, t0, t1).0)
    ensures Dispatch(s, c, t0, t1).0.p.plan == s.p.plan
    ensures |Dispatch(s, c, t0, t1).0.x.slots| == if c.FetchSamples? then 0 else |s.x.slots|
  {
  }

  lemma {:induction false} LiveRun(s: System, d: Drive, ticks: seq<Tick>)
    requires Inv(s) && StaysLive(s, d, ticks)
    ensures Run(s, d, ticks).0.p.plan == s.p.plan
    ensures |Run(s, d, ticks).0.x.slots| == if Fetches(ticks) then 0 else |s.x.slots|
    decreases |ticks|
  {
    if ticks != [] {
      LoopKeepsInv(s, d, ticks[0]);
      LiveTurn(s, d, ticks[0]);
      LiveRun(LoopStep(s, d, ticks[0]).0, d, ticks[1..]);
      assert Fetches(ticks[1..]) ==> Fetches(ticks) by {
        assert forall i | 0 <= i < |ticks[1..]| :: ticks[1..][i] == ticks[i + 1];
      }
      assert forall i | 1 <= i < |ticks| :: ticks[i] == ticks[1..][i - 1];
    }
  }

  /** The waypoints of the upload in order, each with its planned instant in the last pass. */
  function PlanReplies(plan: Plan): seq<Reply>
    requires plan.meta.repeatCount > 0
  {
    [Ok] + seq(|plan.samples|, i requires 0 <= i < |plan.samples| =>
      SampleLine(Stamp(plan.samples, plan.meta.repeatCount - 1, i) % WORD, plan.samples[i].joints))
  }

  lemma UploadTurn(s: System, d: Drive, upload: Tick)
    requires Inv(s) && s.p.state == Receiving && upload.command == Some(EndUpload) && Live(LoopStep(s, d, upload).0)
    ensures var t := LoopStep(s, d, upload).0;
            && t.p == s.p.(state := Ready) && |t.x.slots| == |s.p.plan.samples| > 0 && s.p.plan.meta.repeatCount > 0
  {
  }

  /** From an accepted END_UPLOAD to the completion of its execution: SAMPLES returns the plan if and
      only if no SAMPLES was served in between. Otherwise STATUS reports no samples and none are returned. */
  lemma FetchReturnsPlanIff(s: System, d: Drive, upload: Tick, ticks: seq<Tick>, count: int)
    requires Inv(s) && s.p.state == Receiving && upload.command == Some(EndUpload) && Inv(LoopStep(s, d, upload).0)
    requires StaysLive(LoopStep(s, d, upload).0, d, ticks)
    requires Run(LoopStep(s, d, upload).0, d, ticks).0.p.state == Completed
    requires ReadInt(count) >= |s.p.plan.samples|
    ensures s.p.plan.meta.repeatCount > 0
    ensures var done := Run(LoopStep(s, d, upload).0, d, ticks).0;
            && done.x.next <= |done.x.slots|
            && (OnFetchSamples(done, Some(count)).1 == PlanReplies(s.p.plan) <==> !Fetches(ticks))
            && (!Fetches(ticks) ==> OnStatus(done).1 == [StatusCompleted(|s.p.plan.samples|)])
            && (Fetches(ticks) ==> OnStatus(done).1 == [StatusCompleted(0)] && OnFetchSamples(done, Some(count)).1 == [Ok])
  {
    var ready := LoopStep(s, d, upload).0;
    UploadTurn(s, d, upload);
    RunIsSafe(ready, d, ticks);
    LiveRun(ready, d, ticks);
    var done := Run(ready, d, ticks).0;
    if Fetches(ticks) { EmptyBufferReturnsNone(done, count); } else { FullBufferReturnsPlan(done, count); }
  }

  lemma FullBufferReturnsPlan(s: System, count: int)
    requires Inv(s) && s.p.state == Completed && |s.x.slots| == |s.p.plan.samples| > 0
    requires ReadInt(count) >= |s.p.plan.samples|
    ensures s.p.plan.meta.repeatCount > 0 && OnFetchSamples(s, Some(count)).1 == PlanReplies(s.p.plan)
    ensures OnStatus(s).1 == [StatusCompleted(|s.p.plan.samples|)]
  {
    FetchedSamplesAreThePlan(s, count);
  }

  lemma EmptyBufferReturnsNone(s: System, count: int)
    requires Inv(s) && s.p.state == Completed && s.x.slots == [] && ReadInt(count) > 0
    ensures OnStatus(s).1 == [StatusCompleted(0)] && OnFetchSamples(s, Some(count)).1 == [Ok]
    ensures s.p.plan.meta.repeatCount > 0 && s.p.plan.samples != [] ==> OnFetchSamples(s, Some(count)).1 != PlanReplies(s.p.plan)
  {
    if s.p.plan.meta.repeatCount > 0 && s.p.plan.samples != [] { assert |PlanReplies(s.p.plan)| > 1; }
  }

  // ----- An execution whose trace is lost -----

  function At0(c: Command): Tick { Tick(Some(c), 0, 0, 0) }

  const POSE: seq<Option<real>> := [Some(0.0)]

  /** The upload of one waypoint, SAMPLES in READY, then the execution and a status poll. */
  const LOSING: seq<Tick> := [
    At0(UploadManifest(Some(ManifestLine(1, 1, 1, 1, 1)))), At0(UploadSegment(Some(SegmentLine(0, MoveJ, 0, 1)))),
    At0(UploadSample(POSE, Some(0))), At0(EndUpload), At0(FetchSamples(Some(1))), At0(Execute), At0(Status)]

  function Uploading(segments: seq<Segment>, samples: seq<Waypoint>): Proto
  {
    Proto(Receiving, "", Plan(Metadata(1, 1, 1, 1), segments, samples), 1, 0)
  }

  const SEG := Segment(0, MoveJ, 0, 1)
  const POINT := Waypoint([0.0], 0)

  lemma LosingUpload(s: System, d: Drive)
    requires Fresh(s)
    ensures LoopStep(s, d, LOSING[0]).0 == s.(p := Uploading([], []))
    ensures LoopStep(s.(p := Uploading([], [])), d, LOSING[1]).0 == s.(p := Uploading([SEG], []))
    ensures LoopStep(s.(p := Uploading([SEG], [])), d, LOSING[2]).0 == s.(p := Uploading([SEG], [POINT]))
  {
    assert Uploading([], []).plan.segments + [SEG] == [SEG];
    assert Uploading([SEG], []).plan.samples + [POINT] == [POINT];
    assert Parsed(POSE) == [0.0];
  }

  lemma LosingReady(s: System, d: Drive)
    requires s.p == Uploading([SEG], [POINT]) && s.x.mode == Idle && s.x.next <= |s.x.slots|
    ensures LoopStep(s, d, LOSING[3]).0 == System(s.p.(state := Ready), Load(s.x, s.p.plan))
  {
    var plan := s.p.plan;
    assert plan.samples[..0] == [] && plan.segments[1..] == [];
    assert TotalTime(plan.samples) == 0;
    assert CoverageScan(plan.segments, 0) == CoverageScan([], 1);
    assert Verdict(plan) == Valid;
  }

  /** One update at the start consumes the only waypoint; a freed buffer drops it. */
  lemma OnePoint(x: Exec, d: Drive)
    requires x.loaded && x.repeatTotal == 1 && x.slots == []
    ensures var u := Update(Start(x, [POINT], 0, 0), [POINT], d, 0).0;
            u.mode == Done && u.slots == [] && u.next == 0 && u.repeatTotal == 1
  {
    var b := Start(x, [POINT], 0, 0);
    var r := ConsumeOne(b, [POINT]);
    assert Due(b, [POINT], Sub32(0, b.start)) && r.index == 1;
    assert Consume(r, [POINT], 0) == r;
    assert Consume(b, [POINT], 0) == r;
    ActedForm(b, [POINT], d, 0);
  }

  lemma LosingEnd(s: System, d: Drive)
    requires s.p == Uploading([SEG], [POINT]).(state := Ready) && s.x.loaded && s.x.mode == Idle && s.x.repeatTotal == 1
    requires s.x.next <= |s.x.slots|
    ensures LoopStep(s, d, LOSING[4]).0 == s.(x := ClearSamples(s.x))
    ensures var executed := LoopStep(s.(x := ClearSamples(s.x)), d, LOSING[5]).0;
            && executed.p == s.p.(state := Executing)
            && executed.x.mode == Done && executed.x.next == 0 && executed.x.slots == [] && executed.x.repeatTotal == 1
  {
    OnePoint(ClearSamples(s.x), d);
  }

  lemma RunStep(s: System, next: System, d: Drive, ticks: seq<Tick>, k: nat)
    requires Inv(s) && k < |ticks| && LoopStep(s, d, ticks[k]).0 == next
    ensures Inv(next) && Run(s, d, ticks[k..]).0 == Run(next, d, ticks[k + 1..]).0
  {
    LoopKeepsInv(s, d, ticks[k]);
    assert ticks[k..][1..] == ticks[k + 1..];
  }

  lemma LosingUploadRun(s: System, d: Drive, ticks: seq<Tick>)
    requires Fresh(s) && Inv(s) && ticks == LOSING
    ensures var t := s.(p := Uploading([SEG], [POINT])); Inv(t) && Run(s, d, ticks).0 == Run(t, d, ticks[3..]).0
  {
    var s1, s2, s3 := s.(p := Uploading([], [])), s.(p := Uploading([SEG], [])), s.(p := Uploading([SEG], [POINT]));
    LosingUpload(s, d);
    RunStep(s, s1, d, ticks, 0);
    RunStep(s1, s2, d, ticks, 1);
    RunStep(s2, s3, d, ticks, 2);
    assert ticks[0..] == ticks;
  }

  lemma LosingExecution(s: System, d: Drive, ticks: seq<Tick>)
    requires Inv(s) && s.p == Uploading([SEG], [POINT]) && s.x.mode == Idle && ticks == LOSING
    ensures var done := Run(s, d, ticks[3..]).0;
            && done.p == s.p.(state := Completed) && done.x.mode == Done && done.x.next == 0 && done.x.slots == []
  {
    var s4 := System(s.p.(state := Ready), Load(s.x, s.p.plan));
    var s5 := s4.(x := ClearSamples(s4.x));
    LosingReady(s, d);
    LosingEnd(s4, d);
    var s6 := LoopStep(s5, d, ticks[5]).0;
    var s7 := s6.(p := s6.p.(state := Completed));
    RunStep(s, s4, d, ticks, 3);
    RunStep(s4, s5, d, ticks, 4);
    RunStep(s5, s6, d, ticks, 5);
    RunStep(s6, s7, d, ticks, 6);
    assert ticks[7..] == [];
  }

  /** From power-on, a host that asks for SAMPLES in READY is told of no samples when the execution has
      completed, and gets none of the waypoint that was executed. */
  lemma SamplesInReadyLoseTheTrace(s: System, d: Drive)
    requires Fresh(s) && Inv(s)
    ensures var done := Run(s, d, LOSING).0;
            && done.p.state == Completed && done.p.plan.samples == [POINT]
            && done.x.next <= |done.x.slots| && OnStatus(done).1 == [StatusCompleted(0)]
            && OnFetchSamples(done, Some(1)).1 == [Ok]
  {
    LosingUploadRun(s, d, LOSING);
    LosingExecution(s.(p := Uploading([SEG], [POINT])), d, LOSING);
  }
}
