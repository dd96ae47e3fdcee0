/** The wire simulator of the device, in its happy scenario:
    backend/crates/thalos-runtime/examples/esp-simulator.rs. */
module SimulatorModel {
  import opened Prelude
  import opened Words
  import opened Manifests
  import opened Validators
  import opened Wire

  const PROGRESS_STEPS: nat := 10

  datatype Recorded = Recorded(timestamp: nat, joints: seq<real>)

  datatype Sim = Sim(
    samplesPerRun: nat, state: PState, reason: string, meta: Meta,
    spans: seq<Span>, uploaded: seq<Waypoint>, recorded: seq<Recorded>,
    execStep: nat, chunk: nat, sinceAck: nat)

  function PowerOn(samplesPerRun: nat): Sim
  {
    Sim(if samplesPerRun == 0 then 1 else samplesPerRun, AtIdle, "", Meta(0, 0, 0, 1), [], [], [], 0, 1, 0)
  }

  type Reaction = (Sim, seq<Reply>)

  function Fail(s: Sim, reason: string): Reaction
  {
    (s.(state := Failed, reason := reason), [ErrorReply(reason)])
  }

  // ----- Upload validation -----

  predicate SpansOrdered(spans: seq<Span>)
  {
    forall i | 1 <= i < |spans| :: spans[i - 1].index < spans[i].index
  }

  function SpanScan(spans: seq<Span>, next: nat): Option<nat>
  {
    if spans == [] then Some(next)
    else if spans[0].start > next then None
    else
      var end := spans[0].start + spans[0].count;
      SpanScan(spans[1..], if end > next then end else next)
  }

  predicate TimingValid(s: Sim)
  {
    var total, declared := TotalTime(s.uploaded), s.meta.durationUs;
    var tolerance := if declared / 100 > 1000 then declared / 100 else 1000;
    declared - tolerance <= total <= declared + tolerance
  }

  function UploadVerdict(s: Sim): Validation
  {
    if s.uploaded == [] then Invalid("EMPTY_MANIFEST")
    else if exists i | 0 <= i < |s.uploaded| :: |s.uploaded[i].joints| != s.meta.dof then Invalid("DOF_MISMATCH")
    else if |s.uploaded| != s.meta.totalSamples then Invalid("WAYPOINT_COUNT")
    else if !SpansOrdered(s.spans) then Invalid("SEGMENT_ORDER")
    else if SpanScan(s.spans, 0) != Some(s.meta.totalSamples) then Invalid("SEGMENT_COVERAGE")
    else if !TimingValid(s) then Invalid("TIMING_INVALID")
    else Valid
  }

  // ----- Handlers -----

  /** What `parse::<u32>` accepts. */
  predicate Reads32(n: int) { 0 <= n < WORD }

  /** What `parse::<u64>` and, on a 64-bit host, `parse::<usize>` accept. */
  predicate Reads64(n: int) { 0 <= n < LONG_WORD }

  function OnHello(s: Sim, version: Option<int>): Reaction
  {
    if version.None? || !Reads32(version.value) then Fail(s, "MALFORMED_HELLO")
    else if version.value != PROTOCOL_VERSION then Fail(s, "VERSION_MISMATCH")
    else (s, [HelloOk(version.value)])
  }

  /** An optional field that does not parse as an unsigned number falls back to 1. */
  function OrOne(field: int): int { if Reads64(field) then field else 1 }

  function OnManifest(s: Sim, line: Option<ManifestLine>): Reaction
  {
    if s.state != AtIdle && s.state != Completed then Fail(s, "NOT_IDLE")
    else if line.None? || !Reads64(line.value.dof) || !Reads64(line.value.total) || !Reads64(line.value.duration)
    then Fail(s, "MALFORMED_MANIFEST")
    else
      var l := line.value;
      var chunk, repeat := OrOne(l.chunk), OrOne(l.repeat);
      if l.dof == 0 || l.total == 0 || l.duration == 0 || chunk == 0 || repeat == 0 then Fail(s, "INVALID_MANIFEST")
      else
        (s.(meta := Meta(l.dof, l.total, l.duration, repeat), chunk := chunk, sinceAck := 0,
            spans := [], uploaded := [], state := Receiving), [Ok])
  }

  function OnSegment(s: Sim, segment: Option<SegmentLine>): Reaction
  {
    if s.state != Receiving then Fail(s, "NOT_RECEIVING")
    else if segment.None? || !Reads64(segment.value.index) || !Reads64(segment.value.start) || !Reads64(segment.value.count)
    then Fail(s, "MALFORMED_SEGMENT")
    else
      var l := segment.value;
      (s.(spans := s.spans + [Span(l.index, l.start, l.count)]), [Ok])
  }

  function OnSample(s: Sim, joints: seq<Option<real>>, dt: Option<int>): Reaction
  {
    if s.state != Receiving then Fail(s, "NOT_RECEIVING")
    else if |joints| == 0 then Fail(s, "MALFORMED_SAMPLE")
    else if |joints| != s.meta.dof then Fail(s, "DOF_MISMATCH")
    else if !AllParsed(joints) || dt.None? || !Reads32(dt.value) then Fail(s, "MALFORMED_SAMPLE")
    else
      var uploaded := s.uploaded + [Waypoint(Parsed(joints), dt.value)];
      if s.sinceAck + 1 >= s.chunk
      then (s.(uploaded := uploaded, sinceAck := 0), [Ok])
      else (s.(uploaded := uploaded, sinceAck := s.sinceAck + 1), [])
  }

  function OnEndUpload(s: Sim): Reaction
  {
    if s.state != Receiving then Fail(s, "NOT_RECEIVING")
    else match UploadVerdict(s)
      case Valid => (s.(state := Ready), [ReadyReply])
      case Invalid(reason) => Fail(s, reason)
  }

  function OnExecute(s: Sim): Reaction
  {
    if s.state != Ready then Fail(s, "NOT_READY")
    else (s.(state := Executing, execStep := 0), [Ok])
  }

  function OnStop(s: Sim): Reaction
  {
    if s.state == AtIdle || s.state == Receiving then Fail(s, "NOT_ACTIVE")
    else (PowerOn(s.samplesPerRun), [Ok])
  }

  /** The commanded ramp at a fraction of the run. */
  function RampJoints(s: Sim, progress: real): seq<real>
  {
    seq(s.meta.dof, j requires 0 <= j < s.meta.dof => Joint(progress, j, s.meta.dof))
  }

  function Times(a: real, b: real): real { a * b }

  function Joint(progress: real, j: nat, dof: nat): real
    requires j < dof
  {
    Times(progress, j as real + 1.0) / dof as real
  }

  function GeneratedSamples(s: Sim): seq<Recorded>
    requires s.samplesPerRun > 0
  {
    var n := s.samplesPerRun;
    var stepUs := s.meta.durationUs / n;
    var base := (if s.meta.repeatCount == 0 then 0 else s.meta.repeatCount - 1) * s.meta.durationUs;
    seq(n, i requires 0 <= i < n =>
      Recorded(base + i * stepUs, RampJoints(s, if n > 1 then i as real / (n - 1) as real else 0.0)))
  }

  function TotalSteps(s: Sim): nat
  {
    PROGRESS_STEPS * if s.meta.repeatCount == 0 then 1 else s.meta.repeatCount
  }

  function OnStatus(s: Sim): Reaction
    requires s.samplesPerRun > 0
  {
    match s.state
    case Executing =>
      if s.execStep > TotalSteps(s) then
        (s.(recorded := GeneratedSamples(s), state := Completed), [StatusCompleted(s.samplesPerRun)])
      else
        var within := (s.execStep % PROGRESS_STEPS) as real / PROGRESS_STEPS as real;
        var progress := s.execStep as real / TotalSteps(s) as real;
        (s.(execStep := s.execStep + 1), [StatusRunning(progress, RampJoints(s, within))])
    case Completed => (s, [StatusCompleted(|s.recorded|)])
    case Failed => (s, [StatusFailed(s.reason)])
    case _ => (s, [StatusReply(s.state)])
  }

  function RecordedLines(recorded: seq<Recorded>): seq<Reply>
  {
    seq(|recorded|, i requires 0 <= i < |recorded| => SampleLine(recorded[i].timestamp, recorded[i].joints))
  }

  function OnFetchSamples(s: Sim, count: Option<int>): Reaction
  {
    if s.state != AtIdle && s.state != Ready && s.state != Completed then Fail(s, "NOT_AVAILABLE")
    else if count.None? || !Reads64(count.value) || count.value == 0 then Fail(s, "MALFORMED")
    else
      var toSend := Min(count.value, |s.recorded|);
      (s.(recorded := []), [Ok] + RecordedLines(s.recorded[..toSend]))
  }

  function HandleCommand(s: Sim, c: Command): Reaction
    requires s.samplesPerRun > 0
  {
    match c
    case Hello(version) => OnHello(s, version)
    case UploadManifest(line) => OnManifest(s, line)
    case UploadSegment(segment) => OnSegment(s, segment)
    case UploadSample(joints, dt) => OnSample(s, joints, dt)
    case EndUpload => OnEndUpload(s)
    case Execute => OnExecute(s)
    case StopCommand => OnStop(s)
    case Status => OnStatus(s)
    case FetchSamples(count) => OnFetchSamples(s, count)
    case Unrecognized => Fail(s, "UNKNOWN_COMMAND")
  }
}
