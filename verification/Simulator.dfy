/** The simulator as the connection holds it:
    backend/crates/thalos-runtime/examples/esp-simulator.rs. */
module Simulator {
  import opened Prelude
  import opened Words
  import opened Manifests
  import opened Validators
  import opened Wire
  import opened SimulatorModel
  import opened DeviceProtocol
  import opened Refinement

  class SimState {
    const samplesPerRun: nat
    var state: PState
    var errorReason: string
    var meta: Meta
    var segments: seq<Span>
    var uploaded: seq<Waypoint>
    var recorded: seq<Recorded>
    var execStep: nat
    var chunkSize: nat
    var samplesSinceAck: nat

    function View(): Sim
      reads this
    {
      Sim(samplesPerRun, state, errorReason, meta, segments, uploaded, recorded, execStep, chunkSize, samplesSinceAck)
    }

    constructor (perRun: nat)
      ensures View() == PowerOn(perRun)
    {
      samplesPerRun := if perRun == 0 then 1 else perRun;
      state, errorReason, meta := AtIdle, "", Meta(0, 0, 0, 1);
      segments, uploaded, recorded := [], [], [];
      execStep, chunkSize, samplesSinceAck := 0, 1, 0;
    }

    method SetError(why: string) returns (replies: seq<Reply>)
      modifies `state, `errorReason
      ensures (View(), replies) == Fail(old(View()), why)
    {
      state, errorReason := Failed, why;
      replies := [ErrorReply(why)];
    }

    method HandleHello(version: Option<int>) returns (replies: seq<Reply>)
      modifies `state, `errorReason
      ensures (View(), replies) == OnHello(old(View()), version)
    {
      if version.None? || !Reads32(version.value) {
        replies := SetError("MALFORMED_HELLO");
      } else if version.value == 2 {
        replies := [HelloOk(2)];
      } else {
        replies := SetError("VERSION_MISMATCH");
      }
    }

    method HandleManifest(line: Option<ManifestLine>) returns (replies: seq<Reply>)
      modifies this
      ensures (View(), replies) == OnManifest(old(View()), line)
    {
      if state != AtIdle && state != Completed {
        replies := SetError("NOT_IDLE");
        return;
      }
      if line.None? || !Reads64(line.value.dof) || !Reads64(line.value.total) || !Reads64(line.value.duration) {
        replies := SetError("MALFORMED_MANIFEST");
        return;
      }
      var l := line.value;
      var chunk := if Reads64(l.chunk) then l.chunk else 1;
      var repeat := if Reads64(l.repeat) then l.repeat else 1;
      if l.dof == 0 || l.total == 0 || l.duration == 0 || chunk == 0 || repeat == 0 {
        replies := SetError("INVALID_MANIFEST");
        return;
      }
      meta := Meta(l.dof, l.total, l.duration, repeat);
      chunkSize, samplesSinceAck := chunk, 0;
      segments, uploaded := [], [];
      state := Receiving;
      replies := [Ok];
    }

    method HandleSegment(segment: Option<SegmentLine>) returns (replies: seq<Reply>)
      modifies `state, `errorReason, `segments
      ensures (View(), replies) == OnSegment(old(View()), segment)
    {
      if state != Receiving {
        replies := SetError("NOT_RECEIVING");
        return;
      }
      if segment.None? || !Reads64(segment.value.index) || !Reads64(segment.value.start) || !Reads64(segment.value.count) {
        replies := SetError("MALFORMED_SEGMENT");
        return;
      }
      var l := segment.value;
      segments := segments + [Span(l.index, l.start, l.count)];
      replies := [Ok];
    }

    method HandleSample(joints: seq<Option<real>>, dt: Option<int>) returns (replies: seq<Reply>)
      modifies `state, `errorReason, `uploaded, `samplesSinceAck
      ensures (View(), replies) == OnSample(old(View()), joints, dt)
    {
      if state != Receiving {
        replies := SetError("NOT_RECEIVING");
        return;
      }
      if |joints| == 0 {
        replies := SetError("MALFORMED_SAMPLE");
        return;
      }
      if |joints| != meta.dof {
        replies := SetError("DOF_MISMATCH");
        return;
      }
      if !AllParsed(joints) || dt.None? || !Reads32(dt.value) {
        replies := SetError("MALFORMED_SAMPLE");
        return;
      }
      uploaded := uploaded + [Waypoint(Parsed(joints), dt.value)];
      samplesSinceAck := samplesSinceAck + 1;
      replies := [];
      if samplesSinceAck >= chunkSize {
        samplesSinceAck := 0;
        replies := [Ok];
      }
    }

    method HandleEndUpload() returns (replies: seq<Reply>)
      modifies `state, `errorReason
      ensures (View(), replies) == OnEndUpload(old(View()))
    {
      if state != Receiving {
        replies := SetError("NOT_RECEIVING");
        return;
      }
      var verdict := ValidateUpload();
      match verdict
      case Valid =>
        state := Ready;
        replies := [ReadyReply];
      case Invalid(why) =>
        replies := SetError(why);
    }

    method ValidateUpload() returns (v: Validation)
      ensures v == UploadVerdict(View())
    {
      if uploaded == [] { return Invalid("EMPTY_MANIFEST"); }
      if exists i | 0 <= i < |uploaded| :: |uploaded[i].joints| != meta.dof { return Invalid("DOF_MISMATCH"); }
      if |uploaded| != meta.totalSamples { return Invalid("WAYPOINT_COUNT"); }
      if !SpansOrdered(segments) { return Invalid("SEGMENT_ORDER"); }
      var covered := SegmentsCoverAllSamples();
      if !covered { return Invalid("SEGMENT_COVERAGE"); }
      if !TimingValid(View()) { return Invalid("TIMING_INVALID"); }
      return Valid;
    }

    method SegmentsCoverAllSamples() returns (ok: bool)
      ensures ok <==> SpanScan(segments, 0) == Some(meta.totalSamples)
    {
      var next := 0;
      for i := 0 to |segments|
        invariant SpanScan(segments, 0) == SpanScan(segments[i..], next)
      {
        if segments[i].start > next { return false; }
        var end := segments[i].start + segments[i].count;
        if end > next { next := end; }
      }
      return next == meta.totalSamples;
    }

    method HandleExecute() returns (replies: seq<Reply>)
      modifies `state, `errorReason, `execStep
      ensures (View(), replies) == OnExecute(old(View()))
    {
      if state != Ready {
        replies := SetError("NOT_READY");
        return;
      }
      state, execStep := Executing, 0;
      replies := [Ok];
    }

    method HandleStop() returns (replies: seq<Reply>)
      requires samplesPerRun > 0
      modifies this
      ensures (View(), replies) == OnStop(old(View()))
    {
      if state == AtIdle || state == Receiving {
        replies := SetError("NOT_ACTIVE");
        return;
      }
      Reset();
      replies := [Ok];
    }

    method Reset()
      requires samplesPerRun > 0
      modifies this
      ensures View() == PowerOn(samplesPerRun)
    {
      state, errorReason, meta := AtIdle, "", Meta(0, 0, 0, 1);
      segments, uploaded, recorded := [], [], [];
      execStep, chunkSize, samplesSinceAck := 0, 1, 0;
    }

    method HandleStatus() returns (replies: seq<Reply>)
      requires samplesPerRun > 0
      modifies `state, `recorded, `execStep
      ensures (View(), replies) == OnStatus(old(View()))
    {
      match state
      case Executing => replies := StatusWhileExecuting();
      case Completed => replies := [StatusCompleted(|recorded|)];
      case Failed => replies := [StatusFailed(errorReason)];
      case _ => replies := [StatusReply(state)];
    }

    method StatusWhileExecuting() returns (replies: seq<Reply>)
      requires samplesPerRun > 0 && state == Executing
      modifies `state, `recorded, `execStep
      ensures (View(), replies) == OnStatus(old(View()))
    {
      ghost var before := View();
      var totalSteps := PROGRESS_STEPS * if meta.repeatCount == 0 then 1 else meta.repeatCount;
      if execStep > totalSteps {
        recorded := GeneratedSamples(View());
        state := Completed;
        return [StatusCompleted(|recorded|)];
      }
      var within := (execStep % PROGRESS_STEPS) as real / PROGRESS_STEPS as real;
      var progress := execStep as real / totalSteps as real;
      replies := [StatusRunning(progress, RampJoints(View(), within))];
      execStep := execStep + 1;
    }

    method HandleSamples(count: Option<int>) returns (replies: seq<Reply>)
      modifies `state, `errorReason, `recorded
      ensures (View(), replies) == OnFetchSamples(old(View()), count)
    {
      if state != AtIdle && state != Ready && state != Completed {
        replies := SetError("NOT_AVAILABLE");
        return;
      }
      if count.None? || !Reads64(count.value) || count.value == 0 {
        replies := SetError("MALFORMED");
        return;
      }
      var toSend := Min(count.value, |recorded|);
      replies := [Ok];
      for i := 0 to toSend
        invariant replies == [Ok] + RecordedLines(recorded[..i])
      {
        assert RecordedLines(recorded[..i + 1]) == RecordedLines(recorded[..i])
                                                    + [SampleLine(recorded[i].timestamp, recorded[i].joints)];
        replies := replies + [SampleLine(recorded[i].timestamp, recorded[i].joints)];
      }
      recorded := [];
    }

    method Handle(c: Command) returns (replies: seq<Reply>)
      requires samplesPerRun > 0
      modifies this
      ensures (View(), replies) == HandleCommand(old(View()), c)
      ensures InRange(c) ==> (OfSimulator(View()), Notices(replies)) == Receives(Settled(old(View()), c), c)
    {
      if InRange(c) { SimulatorAnswers(View(), c); }
      match c
      case Hello(version) => replies := HandleHello(version);
      case UploadManifest(line) => replies := HandleManifest(line);
      case UploadSegment(segment) => replies := HandleSegment(segment);
      case UploadSample(joints, dt) => replies := HandleSample(joints, dt);
      case EndUpload => replies := HandleEndUpload();
      case Execute => replies := HandleExecute();
      case StopCommand => replies := HandleStop();
      case Status => replies := HandleStatus();
      case FetchSamples(count) => replies := HandleSamples(count);
      case Unrecognized => replies := SetError("UNKNOWN_COMMAND");
    }
  }

  /** One connection, from a fresh simulator to its last line: on in-range lines, a run of the protocol. */
  method ServeConnection(perRun: nat, lines: seq<Command>) returns (state: SimState, responses: seq<Reply>)
    ensures (state.View(), responses) == Serve(PowerOn(perRun), lines)
    ensures (forall i | 0 <= i < |lines| :: InRange(lines[i]))
            ==> (&& Legal(SWITCHED_ON, SimulatorEvents(PowerOn(perRun), lines))
                 && Behaviour(SWITCHED_ON, SimulatorEvents(PowerOn(perRun), lines))
                    == (OfSimulator(state.View()), Notices(responses)))
  {
    state := new SimState(perRun);
    responses := [];
    assert lines[0..] == lines && [] + Serve(state.View(), lines).1 == Serve(state.View(), lines).1;
    for i := 0 to |lines|
      invariant fresh(state) && state.samplesPerRun > 0
      invariant Serve(PowerOn(perRun), lines)
             == (Serve(state.View(), lines[i..]).0, responses + Serve(state.View(), lines[i..]).1)
    {
      ghost var before, written := state.View(), responses;
      assert lines[i..][0] == lines[i] && lines[i..][1..] == lines[i + 1..];
      var replies := state.Handle(lines[i]);
      responses := responses + replies;
      assert written + (replies + Serve(state.View(), lines[i + 1..]).1) == responses + Serve(state.View(), lines[i + 1..]).1;
    }
    assert responses + [] == responses;
    if forall i | 0 <= i < |lines| :: InRange(lines[i]) { SimulatorRefines(PowerOn(perRun), lines); }
  }
}
