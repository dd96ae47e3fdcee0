/** The firmware main loop, `poll()` then `update(micros())`, over arbitrary commands and
    clock readings: firmware/esp32/src/main.cpp. */
module FirmwareModel {
  import opened Prelude
  import opened Words
  import opened Manifests
  import opened ServoSafety
  import opened Servos
  import opened Validators
  import opened ExecutorModel
  import opened ExecutorScheduling
  import opened ExecutorTrace
  import opened ExecutorMotion
  import opened Executors
  import opened ProtocolModel
  import opened Wire

  /** One turn of the loop: the line that arrived, if any, and the clock readings taken on the way. */
  datatype Tick = Tick(command: Option<Command>, t0: u32, t1: u32, now: u32)

  // ----- The invariant -----

  /** The state of the executor matches the state of the protocol. */
  predicate InStep(s: System)
  {
    && (s.x.mode == Running ==> s.p.state == Executing)
    && (s.p.state == Executing ==> s.x.mode != Idle)
    && (s.p.state == Completed ==> s.x.mode == Done)
  }

  /** While an upload is ready or executing, the executor has it and it is a valid one. */
  predicate Armed(s: System)
  {
    s.p.state == Ready || s.p.state == Executing ==>
      && s.x.loaded && Verdict(s.p.plan) == Valid && s.p.plan.meta.repeatCount > 0
      && s.x.repeatTotal == s.p.plan.meta.repeatCount
      && s.x.passDuration == PassLength(s.p.plan.samples) % WORD
  }

  /** The upload in progress declares at least one pass, and owes an acknowledgement for exactly
      the samples since the last whole chunk. */
  predicate UploadAccounted(p: Proto)
  {
    && p.chunk >= 1 && p.sinceAck == |p.plan.samples| % p.chunk
    && (p.state == Receiving ==> p.plan.meta.repeatCount > 0)
  }

  /** The pose the stepper moves from is inside the envelope, in motion and at rest. */
  predicate Moving(s: System)
  {
    && s.x.next <= |s.x.slots| && InEnvelope(s.x.position)
    && (s.p.state == Executing ==> Active(s.x, s.p.plan.samples) && Safe(s.x, s.p.plan.samples))
  }

  /** A buffer that was not cleared since the upload holds the exact trace. */
  predicate TraceKept(s: System)
  {
    |s.x.slots| == |s.p.plan.samples| > 0 ==>
      && (s.p.state == Ready ==> s.x.next == 0)
      && (s.p.state == Executing ==> TraceFields(s.x, s.p.plan.samples))
      && (s.p.state == Completed ==>
            && s.p.plan.meta.repeatCount > 0 && s.x.next == |s.p.plan.samples|
            && Retains(s.x.slots, s.p.plan.samples, s.p.plan.meta.repeatCount - 1, s.x.next))
  }

  predicate Inv(s: System)
  {
    InStep(s) && Armed(s) && UploadAccounted(s.p) && Moving(s) && TraceKept(s)
  }

  // ----- The steps -----

  function LoopStep(s: System, d: Drive, tick: Tick): (System, Option<seq<real>>)
    requires Wellformed(s)
  {
    Stepped(Poll(s, tick.command, tick.t0, tick.t1).0, d, tick.now)
  }

  function Stepped(s: System, d: Drive, now: u32): (System, Option<seq<real>>)
  {
    var (x, written) := Update(s.x, s.p.plan.samples, d, now);
    (s.(x := x), written)
  }

  lemma FailKeepsInv(s: System, why: string)
    requires Inv(s)
    ensures Inv(Fail(s, why).0)
  {
  }

  /** A valid manifest gives the stepper what it relies on. */
  lemma StartIsSafe(x: Exec, plan: Plan, t0: u32, t1: u32)
    requires x.loaded && Verdict(plan) == Valid && x.repeatTotal == plan.meta.repeatCount > 0 && x.next <= |x.slots|
    ensures var s := Start(x, plan.samples, t0, t1);
            && s.mode == Running && s.repeatTotal == x.repeatTotal && s.passDuration == x.passDuration
            && Active(s, plan.samples) && Safe(s, plan.samples)
            && (|x.slots| == |plan.samples| && x.passDuration == PassLength(plan.samples) % WORD
                ==> TraceFields(s, plan.samples))
  {
  }

  lemma ExecuteKeepsInv(s: System, t0: u32, t1: u32)
    requires Inv(s)
    ensures Inv(OnExecute(s, t0, t1).0)
  {
    if s.p.state == Ready { StartIsSafe(s.x, s.p.plan, t0, t1); }
  }

  lemma SampleKeepsInv(s: System, joints: seq<Option<real>>, dt: Option<int>)
    requires Inv(s)
    ensures Inv(OnSample(s, joints, dt).0)
  {
    NextRemainder(|s.p.plan.samples|, s.p.chunk);
  }

  lemma NextRemainder(n: nat, chunk: nat)
    requires chunk >= 1
    ensures (n + 1) % chunk == if n % chunk + 1 >= chunk then 0 else n % chunk + 1
  {
    var q, r := n / chunk, n % chunk;
    if r + 1 == chunk {
      assert n + 1 == (q + 1) * chunk + 0;
      UniqueRemainder(n + 1, q + 1, 0, chunk);
    } else {
      assert n + 1 == q * chunk + (r + 1);
      UniqueRemainder(n + 1, q, r + 1, chunk);
    }
  }

  lemma UniqueRemainder(n: nat, q: nat, r: nat, d: nat)
    requires r < d && n == q * d + r
    ensures n % d == r
  {
    SmallMultiple(q - n / d, n % d - r, d);
  }

  lemma SmallMultiple(a: int, x: int, d: int)
    requires a * d == x && -d < x < d
    ensures x == 0
  {
  }

  lemma ManifestKeepsInv(s: System, line: Option<ManifestLine>)
    requires Inv(s)
    ensures Inv(OnManifest(s, line).0)
  {
    var t := OnManifest(s, line).0;
    assert t.p.state == Receiving ==> t.p.sinceAck == 0 && |t.p.plan.samples| == 0 % t.p.chunk;
  }

  lemma EndUploadKeepsInv(s: System)
    requires Inv(s)
    ensures Inv(OnEndUpload(s).0)
  {
  }

  lemma FetchKeepsInv(s: System, count: Option<int>)
    requires Inv(s)
    ensures Inv(OnFetchSamples(s, count).0)
  {
  }

  lemma SegmentKeepsInv(s: System, segment: Option<SegmentLine>)
    requires Inv(s)
    ensures Inv(OnSegment(s, segment).0)
  {
  }

  lemma StopKeepsInv(s: System)
    requires Inv(s)
    ensures Inv(OnStop(s).0)
  {
  }

  lemma HelloKeepsInv(s: System, version: Option<int>)
    requires Inv(s)
    ensures Inv(OnHello(s, version).0)
  {
  }

  /** Every poll keeps the invariant, whatever arrives. */
  lemma PollKeepsInv(s: System, c: Option<Command>, t0: u32, t1: u32)
    requires Inv(s)
    ensures Inv(Poll(s, c, t0, t1).0)
  {
    var n := NoticeCompletion(s);
    assert Inv(n);
    if c.Some? { DispatchKeepsInv(n, c.value, t0, t1); }
  }

  lemma DispatchKeepsInv(s: System, c: Command, t0: u32, t1: u32)
    requires Inv(s)
    ensures Inv(Dispatch(s, c, t0, t1).0)
  {
    match c
    case Hello(version) => HelloKeepsInv(s, version);
    case UploadManifest(line) => ManifestKeepsInv(s, line);
    case UploadSegment(segment) => SegmentKeepsInv(s, segment);
    case UploadSample(joints, dt) => SampleKeepsInv(s, joints, dt);
    case EndUpload => EndUploadKeepsInv(s);
    case Execute => ExecuteKeepsInv(s, t0, t1);
    case StopCommand => StopKeepsInv(s);
    case Status =>
    case FetchSamples(count) => FetchKeepsInv(s, count);
    case Unrecognized => FailKeepsInv(s, "UNKNOWN_COMMAND");
  }

  /** Every update keeps the invariant, whenever it comes. */
  lemma UpdateKeepsInv(s: System, d: Drive, now: u32)
    requires Inv(s)
    ensures Inv(s.(x := Update(s.x, s.p.plan.samples, d, now).0))
  {
    if s.x.mode == Running {
      UpdateAdvances(s.x, s.p.plan.samples, d, now);
      UpdateIsSafe(s.x, s.p.plan.samples, d, now);
      UpdateFrame(s.x, s.p.plan.samples, d, now);
      if |s.x.slots| == |s.p.plan.samples| { UpdateTraces(s.x, s.p.plan.samples, d, now); }
    }
  }

  /** An update leaves the size of the buffer and the facts of the upload alone. */
  lemma UpdateFrame(e: Exec, ws: seq<Waypoint>, d: Drive, now: u32)
    requires e.mode == Running && Steppable(e, ws)
    ensures var u := Update(e, ws, d, now).0;
            && |u.slots| == |e.slots| && u.loaded && u.passDuration == e.passDuration && u.repeatTotal == e.repeatTotal
            && u.next <= |u.slots|
  {
    ConsumeShape(e, ws, Sub32(now, e.start));
  }

  lemma LoopKeepsInv(s: System, d: Drive, tick: Tick)
    requires Inv(s)
    ensures Inv(LoopStep(s, d, tick).0)
  {
    PollKeepsInv(s, tick.command, tick.t0, tick.t1);
    UpdateKeepsInv(Poll(s, tick.command, tick.t0, tick.t1).0, d, tick.now);
  }

  // ----- Runs -----

  /** The state after a run of the loop and every register write it made. */
  function Run(s: System, d: Drive, ticks: seq<Tick>): (System, seq<Pwm>)
    requires Inv(s)
    decreases |ticks|
  {
    if ticks == [] then (s, [])
    else
      LoopKeepsInv(s, d, ticks[0]);
      var (next, written) := LoopStep(s, d, ticks[0]);
      var (final, sent) := Run(next, d, ticks[1..]);
      (final, Pulses(written) + sent)
  }

  predicate Fresh(s: System)
  {
    s.p == POWER_ON && s.x.mode == Idle && s.x.next <= |s.x.slots| && InEnvelope(s.x.position)
  }

  lemma FreshIsInv(s: System)
    requires Fresh(s)
    ensures Inv(s)
  {
  }

  /** What a loop turn writes is safe and comes from an execution under way. */
  lemma LoopWritesSafely(s: System, d: Drive, tick: Tick)
    requires Inv(s)
    ensures var written := LoopStep(s, d, tick).1;
            && (forall p | p in Pulses(written) :: SafePwm(p))
            && (written.Some? ==>
                  && Poll(s, tick.command, tick.t0, tick.t1).0.p.state == Executing
                  && |written.value| >= CHANNELS && InEnvelope(written.value))
  {
    PollKeepsInv(s, tick.command, tick.t0, tick.t1);
    var polled := Poll(s, tick.command, tick.t0, tick.t1).0;
    if polled.x.mode == Running {
      UpdateIsSafe(polled.x, polled.p.plan.samples, d, tick.now);
      var written := LoopStep(s, d, tick).1;
      if written.Some? { BurstIsSafe(written.value); }
    }
  }

  /** What this turn sends the arm to is within reach of the pose the stepper moves from, at top speed
      in the (clamped) time since the last write: the writes of an execution's first turn included. */
  predicate TurnKeepsSpeed(s: System, d: Drive, tick: Tick)
    requires Wellformed(s)
  {
    var x, written := Poll(s, tick.command, tick.t0, tick.t1).0.x, LoopStep(s, d, tick).1;
    written.Some? ==> WithinReach(x.position, written.value, Elapsed(x, tick.now))
  }

  lemma LoopRespectsSpeed(s: System, d: Drive, tick: Tick)
    requires Inv(s)
    ensures TurnKeepsSpeed(s, d, tick)
  {
    PollKeepsInv(s, tick.command, tick.t0, tick.t1);
    var polled := Poll(s, tick.command, tick.t0, tick.t1).0;
    if polled.x.mode == Running {
      UpdateSpeed(polled.x, polled.p.plan.samples, d, tick.now);
      ActedIsSafe(polled.x, polled.p.plan.samples, d, tick.now);
    }
  }

  predicate EveryTurnKeepsSpeed(s: System, d: Drive, ticks: seq<Tick>)
    requires Inv(s)
    decreases |ticks|
  {
    ticks == [] || (
      LoopKeepsInv(s, d, ticks[0]);
      TurnKeepsSpeed(s, d, ticks[0]) && EveryTurnKeepsSpeed(LoopStep(s, d, ticks[0]).0, d, ticks[1..]))
  }

  /** From power-on, through any commands at any times, the invariant holds, the position stays in the
      envelope, every pulse the arm receives lies in its channel's safe range, and every write is
      within the speed limit. */
  lemma {:induction false} RunIsSafe(s: System, d: Drive, ticks: seq<Tick>)
    requires Inv(s)
    ensures Inv(Run(s, d, ticks).0) && InEnvelope(Run(s, d, ticks).0.x.position)
    ensures forall p | p in Run(s, d, ticks).1 :: SafePwm(p)
    ensures EveryTurnKeepsSpeed(s, d, ticks)
    decreases |ticks|
  {
    if ticks != [] {
      LoopKeepsInv(s, d, ticks[0]);
      LoopWritesSafely(s, d, ticks[0]);
      LoopRespectsSpeed(s, d, ticks[0]);
      RunIsSafe(LoopStep(s, d, ticks[0]).0, d, ticks[1..]);
    }
  }

  /** What one turn needs and gives: the stepper can run after the poll, the invariant holds
      at the end, and the pulses are safe. */
  lemma TurnIsSound(s: System, d: Drive, tick: Tick)
    requires Inv(s)
    ensures var polled := Poll(s, tick.command, tick.t0, tick.t1).0;
            polled.x.mode == Running ==> Steppable(polled.x, polled.p.plan.samples)
    ensures Inv(LoopStep(s, d, tick).0)
    ensures forall p | p in Pulses(LoopStep(s, d, tick).1) :: SafePwm(p)
  {
    PollKeepsInv(s, tick.command, tick.t0, tick.t1);
    LoopKeepsInv(s, d, tick);
    LoopWritesSafely(s, d, tick);
  }

  // ----- Consequences -----

  /** A poll changes the manifest only on the way to the idle state or in an upload, and takes it
      away from a running executor only for STOP. */
  lemma PollPlan(s: System, c: Option<Command>, t0: u32, t1: u32)
    requires Inv(s)
    ensures var p := Poll(s, c, t0, t1).0.p;
            p.plan != s.p.plan ==>
              && (p.state == AtIdle || p.state == Receiving)
              && (s.p.state == Executing && s.x.mode == Running ==> c == Some(StopCommand) && p == POWER_ON)
  {
  }

  /** The manifest changes only in a turn that leaves the executor at rest, and while the executor
      runs only STOP can take it away. */
  lemma ManifestFrozen(s: System, d: Drive, tick: Tick)
    requires Inv(s)
    ensures var next := LoopStep(s, d, tick).0;
            next.p.plan != s.p.plan ==>
              && next.x.mode != Running
              && (next.p.state == AtIdle || next.p.state == Receiving)
              && (s.x.mode == Running ==> tick.command == Some(StopCommand) && next.p == POWER_ON)
  {
    PollPlan(s, tick.command, tick.t0, tick.t1);
    LoopKeepsInv(s, d, tick);
  }

  lemma PollError(s: System, c: Option<Command>, t0: u32, t1: u32, why: string)
    requires Inv(s) && ErrorReply(why) in Poll(s, c, t0, t1).1
    ensures Poll(s, c, t0, t1).0.p.state == Failed && Poll(s, c, t0, t1).0.p.reason == why
  {
    var n := NoticeCompletion(s);
    match c.value
    case FetchSamples(count) => assert ErrorReply(why) in OnFetchSamples(n, count).1;
    case _ =>
  }

  /** An error reply always leaves the arm where it is: nothing is written in that turn,
      and the executor is not running after it. */
  lemma ErrorHalts(s: System, d: Drive, tick: Tick, why: string)
    requires Inv(s) && ErrorReply(why) in Poll(s, tick.command, tick.t0, tick.t1).1
    ensures var (next, written) := LoopStep(s, d, tick);
            next.p.state == Failed && next.p.reason == why && next.x.mode != Running && written == None
  {
    PollError(s, tick.command, tick.t0, tick.t1, why);
    PollKeepsInv(s, tick.command, tick.t0, tick.t1);
  }

  /** Nothing but an accepted EXECUTE sets a resting executor going. */
  lemma OnlyExecuteStarts(s: System, d: Drive, tick: Tick)
    requires Inv(s) && s.x.mode != Running && LoopStep(s, d, tick).1.Some?
    ensures s.p.state == Ready && tick.command == Some(Execute)
  {
    PollStarts(s, tick.command, tick.t0, tick.t1);
  }

  lemma PollStarts(s: System, c: Option<Command>, t0: u32, t1: u32)
    requires Inv(s) && s.x.mode != Running && Poll(s, c, t0, t1).0.x.mode == Running
    ensures s.p.state == Ready && c == Some(Execute)
  {
    if c.Some? { DispatchStarts(NoticeCompletion(s), c.value, t0, t1); }
  }

  lemma DispatchStarts(s: System, c: Command, t0: u32, t1: u32)
    requires Wellformed(s) && s.x.mode != Running && Dispatch(s, c, t0, t1).0.x.mode == Running
    ensures s.p.state == Ready && c == Execute
  {
  }

  /** Commands that leave an execution alone. */
  predicate Quiet(c: Option<Command>)
  {
    c.None? || c.value.Status? || c == Some(Hello(Some(PROTOCOL_VERSION)))
  }

  function Clock(ticks: seq<Tick>): seq<u32>
  {
    if ticks == [] then [] else [ticks[0].now] + Clock(ticks[1..])
  }

  /** While only such commands arrive, the loop is the executor's own sequence of updates: what
      is proved of those holds of the firmware. */
  lemma {:induction false} QuietRunIsUpdates(s: System, d: Drive, ticks: seq<Tick>)
    requires Inv(s) && (s.p.state == Executing || s.p.state == Completed)
    requires forall i | 0 <= i < |ticks| :: Quiet(ticks[i].command)
    ensures var r := Run(s, d, ticks).0;
            && r.x == Updates(s.x, s.p.plan.samples, d, Clock(ticks))
            && r.p.plan == s.p.plan && (r.p.state == Executing || r.p.state == Completed)
    decreases |ticks|
  {
    if ticks != [] {
      QuietTurn(s, d, ticks[0]);
      LoopKeepsInv(s, d, ticks[0]);
      QuietRunIsUpdates(LoopStep(s, d, ticks[0]).0, d, ticks[1..]);
    }
  }

  lemma QuietTurn(s: System, d: Drive, tick: Tick)
    requires Inv(s) && (s.p.state == Executing || s.p.state == Completed) && Quiet(tick.command)
    ensures var n := LoopStep(s, d, tick).0;
            && n.x == Update(s.x, s.p.plan.samples, d, tick.now).0
            && n.p.plan == s.p.plan && (n.p.state == Executing || n.p.state == Completed)
  {
  }

  /** After a completed execution whose buffer was not cleared, asking for enough samples returns
      the uploaded waypoints, in order, each with its planned instant in the last pass. */
  lemma FetchedSamplesAreThePlan(s: System, count: int)
    requires Inv(s) && s.p.state == Completed && |s.x.slots| == |s.p.plan.samples| > 0
    requires ReadInt(count) >= |s.p.plan.samples|
    ensures var replies := OnFetchSamples(s, Some(count)).1;
            var ws := s.p.plan.samples;
            && |replies| == |ws| + 1 && replies[0] == Ok
            && s.p.plan.meta.repeatCount > 0
            && forall i | 0 <= i < |ws| ::
                 replies[i + 1] == SampleLine(Stamp(ws, s.p.plan.meta.repeatCount - 1, i) % WORD, ws[i].joints)
  {
  }
}
