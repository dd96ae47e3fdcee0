/** The command state machine as the firmware holds it: it owns the manifest the executor reads. */
module Protocols {
  import opened Prelude
  import opened Words
  import opened Manifests
  import opened ServoSafety
  import opened Validators
  import opened ExecutorModel
  import opened Executors
  import opened ProtocolModel
  import opened Wire

  class Protocol {
    var state: PState
    var reason: string
    const manifest: Manifest
    var chunkSize: nat
    var samplesSinceAck: nat
    const executor: Executor

    /** The executor may only ever point at this protocol's own manifest. */
    ghost predicate Valid()
      reads this, executor
    {
      executor.Valid() && (executor.manifest == null || executor.manifest == manifest)
    }

    ghost function View(): System
      reads this, manifest, executor, executor.recorded
    {
      System(Proto(state, reason, manifest.Contents(), chunkSize, samplesSinceAck), executor.View())
    }

    constructor (device: Executor)
      requires device.Valid() && device.manifest == null
      ensures Valid() && executor == device && fresh(manifest)
      ensures View() == System(POWER_ON, device.View())
    {
      state, reason, chunkSize, samplesSinceAck := AtIdle, "", 1, 0;
      manifest := new Manifest();
      executor := device;
    }

    /** Sets the error state; an execution under way is halted. */
    method SetError(why: string) returns (replies: seq<Reply>)
      requires Valid()
      modifies `state, `reason, executor`mode
      ensures Valid() && (View(), replies) == Fail(old(View()), why)
    {
      if state == Executing {
        executor.StopExecution();
      }
      reason, state := why, Failed;
      replies := [ErrorReply(why)];
    }

    method HandleHello(version: Option<int>) returns (replies: seq<Reply>)
      requires Valid()
      modifies `state, `reason, executor`mode
      ensures Valid() && (View(), replies) == OnHello(old(View()), version)
    {
      if version.None? {
        replies := SetError("MALFORMED_HELLO");
      } else if ReadInt(version.value) != PROTOCOL_VERSION {
        replies := SetError("VERSION_MISMATCH");
      } else {
        replies := [HelloOk(ReadInt(version.value))];
      }
    }

    method HandleManifest(line: Option<ManifestLine>) returns (replies: seq<Reply>)
      requires Valid()
      modifies `state, `reason, `chunkSize, `samplesSinceAck, manifest, executor`mode
      ensures Valid() && (View(), replies) == OnManifest(old(View()), line)
    {
      if state != AtIdle && state != Completed {
        replies := SetError("NOT_IDLE");
        return;
      }
      if line.None? {
        replies := SetError("MALFORMED_MANIFEST");
        return;
      }
      var l := ReadManifest(line.value);
      if l.dof <= 0 || l.total <= 0 || l.duration <= 0 || l.chunk <= 0 || l.repeat <= 0 {
        replies := SetError("INVALID_MANIFEST");
        return;
      }
      manifest.meta := Metadata(Cast8(l.dof), Cast32(l.total), l.duration, l.repeat);
      manifest.segments, manifest.samples := [], [];
      chunkSize, samplesSinceAck := l.chunk, 0;
      state := Receiving;
      replies := [Ok];
    }

    method HandleSegment(segment: Option<SegmentLine>) returns (replies: seq<Reply>)
      requires Valid()
      modifies `state, `reason, manifest`segments, executor`mode
      ensures Valid() && (View(), replies) == OnSegment(old(View()), segment)
    {
      if state != Receiving {
        replies := SetError("NOT_RECEIVING");
        return;
      }
      if segment.None? {
        replies := SetError("MALFORMED_SEGMENT");
        return;
      }
      var l := ReadSegment(segment.value);
      var seg := Segment(Cast8(l.index), l.instruction, Cast32(l.start), Cast32(l.count));
      manifest.segments := manifest.segments + [seg];
      replies := [Ok];
    }

    method HandleSample(joints: seq<Option<real>>, dt: Option<int>) returns (replies: seq<Reply>)
      requires Valid()
      modifies `state, `reason, `samplesSinceAck, manifest`samples, executor`mode
      ensures Valid() && (View(), replies) == OnSample(old(View()), joints, dt)
    {
      if state != Receiving {
        replies := SetError("NOT_RECEIVING");
        return;
      }
      if |joints| == 0 {
        replies := SetError("MALFORMED_SAMPLE");
        return;
      }
      if |joints| != manifest.meta.dof {
        replies := SetError("DOF_MISMATCH");
        return;
      }
      var values := ParseJoints(joints);
      if values.None? || dt.None? || dt.value < 0 || dt.value >= 0x8000_0000 {
        replies := SetError("MALFORMED_SAMPLE");
        return;
      }
      var inside := CheckPhysicalEnvelope(values.value);
      if !inside {
        replies := SetError("INVALID_JOINT");
        return;
      }
      manifest.samples := manifest.samples + [Waypoint(values.value, dt.value)];
      samplesSinceAck := samplesSinceAck + 1;
      replies := [];
      if samplesSinceAck >= chunkSize {
        samplesSinceAck := 0;
        replies := [Ok];
      }
    }

    /** The joint values in order, or None at the first that does not parse. */
    static method ParseJoints(joints: seq<Option<real>>) returns (values: Option<seq<real>>)
      ensures values == if AllParsed(joints) then Some(Parsed(joints)) else None
    {
      var parsed: seq<real> := [];
      for i := 0 to |joints|
        invariant |parsed| == i
        invariant forall k | 0 <= k < i :: joints[k].Some? && parsed[k] == joints[k].value
      {
        if joints[i].None? { return None; }
        parsed := parsed + [joints[i].value];
      }
      assert parsed == Parsed(joints);
      return Some(parsed);
    }

    method HandleEndUpload() returns (replies: seq<Reply>)
      requires Valid()
      modifies `state, `reason, executor
      ensures Valid() && (View(), replies) == OnEndUpload(old(View()))
      ensures executor.recorded == old(executor.recorded) || fresh(executor.recorded)
      ensures executor.servo == old(executor.servo)
    {
      if state != Receiving {
        replies := SetError("NOT_RECEIVING");
        return;
      }
      var verdict := ValidateManifest(manifest);
      match verdict
      case Valid =>
        executor.LoadManifest(manifest);
        state := Ready;
        replies := [ReadyReply];
      case Invalid(why) =>
        replies := SetError(why);
    }

    method HandleExecute(t0: u32, t1: u32) returns (replies: seq<Reply>)
      requires Valid()
      modifies `state, `reason, executor
      ensures Valid() && (View(), replies) == OnExecute(old(View()), t0, t1)
      ensures executor.recorded == old(executor.recorded)
      ensures executor.servo == old(executor.servo)
    {
      if state != Ready {
        replies := SetError("NOT_READY");
        return;
      }
      executor.StartExecution(t0, t1);
      state := Executing;
      replies := [Ok];
    }

    method HandleStop() returns (replies: seq<Reply>)
      requires Valid()
      modifies `state, `reason, `chunkSize, `samplesSinceAck, manifest, executor`mode
      ensures Valid() && (View(), replies) == OnStop(old(View()))
    {
      if state == AtIdle || state == Receiving {
        replies := SetError("NOT_ACTIVE");
        return;
      }
      executor.StopExecution();
      ResetState();
      replies := [Ok];
    }

    method ResetState()
      requires Valid()
      modifies `state, `reason, `chunkSize, `samplesSinceAck, manifest
      ensures Valid() && View() == old(View()).(p := POWER_ON)
    {
      state, reason := AtIdle, "";
      manifest.meta := NO_METADATA;
      manifest.segments, manifest.samples := [], [];
      chunkSize, samplesSinceAck := 1, 0;
    }

    method HandleStatus() returns (replies: seq<Reply>)
      requires Valid() && Wellformed(View())
      ensures (View(), replies) == OnStatus(View())
    {
      match state
      case Executing =>
        var fraction := executor.CurrentProgress();
        var joints := executor.CommandedJoints();
        replies := [StatusRunning(fraction, joints)];
      case Completed =>
        replies := [StatusCompleted(executor.next)];
      case Failed =>
        replies := [StatusFailed(reason)];
      case _ =>
        replies := [StatusReply(state)];
    }

    method HandleSamples(count: Option<int>) returns (replies: seq<Reply>)
      requires Valid()
      modifies `state, `reason, executor
      ensures Valid() && (View(), replies) == OnFetchSamples(old(View()), count)
      ensures executor.recorded == old(executor.recorded) || fresh(executor.recorded)
      ensures executor.servo == old(executor.servo)
    {
      if state != AtIdle && state != Completed && state != Ready {
        replies := SetError("NOT_AVAILABLE");
        return;
      }
      if count.None? || ReadInt(count.value) <= 0 {
        replies := SetError("MALFORMED");
        return;
      }
      var toSend := Min(ReadInt(count.value), executor.next);
      ghost var slots := executor.recorded[..];
      replies := [Ok];
      for i := 0 to toSend
        invariant replies == [Ok] + SampleLines(slots[..i])
        invariant executor.recorded[..] == slots
      {
        assert SampleLines(slots[..i + 1]) == SampleLines(slots[..i]) + [SampleLine(slots[i].timestamp, slots[i].joints)];
        replies := replies + [SampleLine(executor.recorded[i].timestamp, executor.recorded[i].joints)];
      }
      executor.ClearRecorded();
    }

    /** One poll: notice a finished execution, then handle at most one line. */
    method PollLine(c: Option<Command>, t0: u32, t1: u32) returns (replies: seq<Reply>)
      requires Valid() && Wellformed(View())
      modifies this, manifest, executor
      ensures Valid() && (View(), replies) == Poll(old(View()), c, t0, t1)
      ensures executor.recorded == old(executor.recorded) || fresh(executor.recorded)
      ensures executor.servo == old(executor.servo)
    {
      var done := executor.IsComplete();
      if state == Executing && done {
        state := Completed;
      }
      if c.None? { return []; }
      replies := DispatchLine(c.value, t0, t1);
    }

    method DispatchLine(c: Command, t0: u32, t1: u32) returns (replies: seq<Reply>)
      requires Valid() && Wellformed(View())
      modifies this, manifest, executor
      ensures Valid() && (View(), replies) == Dispatch(old(View()), c, t0, t1)
      ensures executor.recorded == old(executor.recorded) || fresh(executor.recorded)
      ensures executor.servo == old(executor.servo)
    {
      match c
      case Hello(version) => replies := HandleHello(version);
      case UploadManifest(line) => replies := HandleManifest(line);
      case UploadSegment(segment) => replies := HandleSegment(segment);
      case UploadSample(joints, dt) => replies := HandleSample(joints, dt);
      case EndUpload => replies := HandleEndUpload();
      case Execute => replies := HandleExecute(t0, t1);
      case StopCommand => replies := HandleStop();
      case Status => replies := HandleStatus();
      case FetchSamples(count) => replies := HandleSamples(count);
      case Unrecognized => replies := SetError("UNKNOWN_COMMAND");
    }
  }
}
