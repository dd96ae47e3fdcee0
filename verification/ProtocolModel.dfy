/** Command lines and replies of the wire protocol, after tokenizing. */
module Wire {
  import opened Prelude
  import opened Manifests

  const PROTOCOL_VERSION := 2

  datatype ManifestLine = ManifestLine(dof: int, total: int, duration: int, chunk: int, repeat: int)

  datatype SegmentLine = SegmentLine(index: int, instruction: Instruction, start: int, count: int)

  /** A command line after tokenizing. None stands for a part that does not parse; the optional
      fields of a MANIFEST line carry their default 1. A SAMPLE line has one entry for each
      token between the keyword and the last token, which is the dt. */
  datatype Command =
    | Hello(version: Option<int>)
    | UploadManifest(line: Option<ManifestLine>)
    | UploadSegment(segment: Option<SegmentLine>)
    | UploadSample(joints: seq<Option<real>>, dt: Option<int>)
    | EndUpload
    | Execute
    | StopCommand
    | Status
    | FetchSamples(count: Option<int>)
    | Unrecognized

  datatype PState = AtIdle | Receiving | Ready | Executing | Completed | Failed

  datatype Reply =
    | Ok
    | HelloOk(version: int)
    | ReadyReply
    | ErrorReply(reason: string)
    | StatusReply(state: PState)
    | StatusRunning(progress: real, joints: seq<real>)
    | StatusCompleted(count: nat)
    | StatusFailed(reason: string)
    | SampleLine(timestamp: nat, joints: seq<real>)

  /** The declaration of an upload, on unbounded numbers. */
  datatype Meta = Meta(dof: nat, totalSamples: nat, durationUs: nat, repeatCount: nat)

  /** A segment line without its instruction. */
  datatype Span = Span(index: nat, start: nat, count: nat)

  predicate AllParsed(joints: seq<Option<real>>) { forall i | 0 <= i < |joints| :: joints[i].Some? }

  function Parsed(joints: seq<Option<real>>): (r: seq<real>)
    requires AllParsed(joints)
    ensures |r| == |joints|
  {
    seq(|joints|, i requires 0 <= i < |joints| => joints[i].value)
  }
}

/** The command state machine as a function on values: firmware/esp32/src/protocol.cpp. */
module ProtocolModel {
  import opened Prelude
  import opened Words
  import opened Manifests
  import opened ServoSafety
  import opened Validators
  import opened ExecutorModel
  import opened Wire

  datatype Proto = Proto(state: PState, reason: string, plan: Plan, chunk: nat, sinceAck: nat)

  const POWER_ON := Proto(AtIdle, "", EMPTY_PLAN, 1, 0)

  /** The protocol together with the executor it drives. */
  datatype System = System(p: Proto, x: Exec)

  type Outcome = (System, seq<Reply>)

  // ----- The numbers of a line, as the words that hold them -----

  function ReadManifest(l: ManifestLine): ManifestLine
  {
    ManifestLine(ReadInt(l.dof), ReadInt(l.total), ReadUnsigned(l.duration), ReadInt(l.chunk), ReadInt(l.repeat))
  }

  function ReadSegment(l: SegmentLine): SegmentLine
  {
    SegmentLine(ReadInt(l.index), l.instruction, ReadInt(l.start), ReadInt(l.count))
  }

  // ----- Handlers -----

  function Fail(s: System, reason: string): Outcome
  {
    (System(s.p.(state := Failed, reason := reason), if s.p.state == Executing then Stop(s.x) else s.x),
     [ErrorReply(reason)])
  }

  function OnHello(s: System, version: Option<int>): Outcome
  {
    if version.None? then Fail(s, "MALFORMED_HELLO")
    else if ReadInt(version.value) != PROTOCOL_VERSION then Fail(s, "VERSION_MISMATCH")
    else (s, [HelloOk(ReadInt(version.value))])
  }

  function OnManifest(s: System, line: Option<ManifestLine>): Outcome
  {
    if s.p.state != AtIdle && s.p.state != Completed then Fail(s, "NOT_IDLE")
    else if line.None? then Fail(s, "MALFORMED_MANIFEST")
    else
      var l := ReadManifest(line.value);
      if l.dof <= 0 || l.total <= 0 || l.duration <= 0 || l.chunk <= 0 || l.repeat <= 0 then Fail(s, "INVALID_MANIFEST")
      else
        var meta := Metadata(Cast8(l.dof), Cast32(l.total), l.duration, l.repeat);
        (s.(p := s.p.(state := Receiving, plan := Plan(meta, [], []), chunk := l.chunk, sinceAck := 0)), [Ok])
  }

  function OnSegment(s: System, segment: Option<SegmentLine>): Outcome
  {
    if s.p.state != Receiving then Fail(s, "NOT_RECEIVING")
    else if segment.None? then Fail(s, "MALFORMED_SEGMENT")
    else
      var l := ReadSegment(segment.value);
      var added := Segment(Cast8(l.index), l.instruction, Cast32(l.start), Cast32(l.count));
      (s.(p := s.p.(plan := s.p.plan.(segments := s.p.plan.segments + [added]))), [Ok])
  }

  /** The dt is read as a signed 32-bit number: a negative or overflowing token is malformed. */
  predicate DtParses(dt: Option<int>) { dt.Some? && 0 <= dt.value < 0x8000_0000 }

  function OnSample(s: System, joints: seq<Option<real>>, dt: Option<int>): Outcome
  {
    if s.p.state != Receiving then Fail(s, "NOT_RECEIVING")
    else if |joints| == 0 then Fail(s, "MALFORMED_SAMPLE")
    else if |joints| != s.p.plan.meta.dof then Fail(s, "DOF_MISMATCH")
    else if !AllParsed(joints) || !DtParses(dt) then Fail(s, "MALFORMED_SAMPLE")
    else if !InEnvelope(Parsed(joints)) then Fail(s, "INVALID_JOINT")
    else
      var plan := s.p.plan.(samples := s.p.plan.samples + [Waypoint(Parsed(joints), dt.value)]);
      if s.p.sinceAck + 1 >= s.p.chunk
      then (s.(p := s.p.(plan := plan, sinceAck := 0)), [Ok])
      else (s.(p := s.p.(plan := plan, sinceAck := s.p.sinceAck + 1)), [])
  }

  function OnEndUpload(s: System): Outcome
  {
    if s.p.state != Receiving then Fail(s, "NOT_RECEIVING")
    else match Verdict(s.p.plan)
      case Valid => (System(s.p.(state := Ready), Load(s.x, s.p.plan)), [ReadyReply])
      case Invalid(reason) => Fail(s, reason)
  }

  function OnExecute(s: System, t0: u32, t1: u32): Outcome
  {
    if s.p.state != Ready then Fail(s, "NOT_READY")
    else (System(s.p.(state := Executing), Start(s.x, s.p.plan.samples, t0, t1)), [Ok])
  }

  function OnStop(s: System): Outcome
  {
    if s.p.state == AtIdle || s.p.state == Receiving then Fail(s, "NOT_ACTIVE")
    else (System(POWER_ON, Stop(s.x)), [Ok])
  }

  function OnStatus(s: System): Outcome
    requires s.p.state == Executing ==> s.x.repeatTotal > 0
  {
    (s, [match s.p.state
         case Executing => StatusRunning(Progress(s.x, s.p.plan.samples), CurrentJoints(s.x, s.p.plan.samples))
         case Completed => StatusCompleted(s.x.next)
         case Failed => StatusFailed(s.p.reason)
         case _ => StatusReply(s.p.state)])
  }

  function SampleLines(slots: seq<Sample>): seq<Reply>
  {
    seq(|slots|, i requires 0 <= i < |slots| => SampleLine(slots[i].timestamp, slots[i].joints))
  }

  function OnFetchSamples(s: System, count: Option<int>): Outcome
    requires s.x.next <= |s.x.slots|
  {
    if s.p.state != AtIdle && s.p.state != Completed && s.p.state != Ready then Fail(s, "NOT_AVAILABLE")
    else if count.None? || ReadInt(count.value) <= 0 then Fail(s, "MALFORMED")
    else
      var toSend := Min(ReadInt(count.value), s.x.next);
      (s.(x := ClearSamples(s.x)), [Ok] + SampleLines(s.x.slots[..toSend]))
  }

  /** The check at the head of every poll. */
  function NoticeCompletion(s: System): System
  {
    if s.p.state == Executing && s.x.mode == Done then s.(p := s.p.(state := Completed)) else s
  }

  /** What the handlers count on. */
  predicate Wellformed(s: System)
  {
    s.x.next <= |s.x.slots| && (s.p.state == Executing ==> s.x.repeatTotal > 0)
  }

  function Dispatch(s: System, c: Command, t0: u32, t1: u32): Outcome
    requires Wellformed(s)
  {
    match c
    case Hello(version) => OnHello(s, version)
    case UploadManifest(line) => OnManifest(s, line)
    case UploadSegment(segment) => OnSegment(s, segment)
    case UploadSample(joints, dt) => OnSample(s, joints, dt)
    case EndUpload => OnEndUpload(s)
    case Execute => OnExecute(s, t0, t1)
    case StopCommand => OnStop(s)
    case Status => OnStatus(s)
    case FetchSamples(count) => OnFetchSamples(s, count)
    case Unrecognized => Fail(s, "UNKNOWN_COMMAND")
  }

  /** One poll; None when no line, or an empty one, has arrived. */
  function Poll(s: System, c: Option<Command>, t0: u32, t1: u32): Outcome
    requires Wellformed(s)
  {
    var n := NoticeCompletion(s);
    if c.None? then (n, []) else Dispatch(n, c.value, t0, t1)
  }
}
