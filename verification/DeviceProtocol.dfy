/** The protocol both devices follow, with nothing of how they follow it: no executor, no clock,
    no word sizes. The one step a device takes by itself is to finish an execution. */
module DeviceProtocol {
  import opened Prelude
  import opened Manifests
  import opened Validators
  import opened Wire
  import opened SimulatorModel
  import ServoSafety

  datatype Device = Device(
    state: PState, reason: string, meta: Meta, spans: seq<Span>, samples: seq<Waypoint>,
    chunk: nat, sinceAck: nat)

  const SWITCHED_ON := Device(AtIdle, "", Meta(0, 0, 0, 1), [], [], 1, 0)

  /** What a reply says, leaving out progress, counts and recorded samples. */
  datatype Notice =
    | Acknowledged
    | Greeted(version: int)
    | UploadReady
    | Refused(reason: string)
    | StateIs(state: PState)
    | FailureIs(reason: string)

  function NoticeOf(r: Reply): seq<Notice>
  {
    match r
    case Ok => [Acknowledged]
    case HelloOk(version) => [Greeted(version)]
    case ReadyReply => [UploadReady]
    case ErrorReply(reason) => [Refused(reason)]
    case StatusReply(state) => [StateIs(state)]
    case StatusRunning(_, _) => [StateIs(Executing)]
    case StatusCompleted(_) => [StateIs(Completed)]
    case StatusFailed(reason) => [FailureIs(reason)]
    case SampleLine(_, _) => []
  }

  function Notices(replies: seq<Reply>): seq<Notice>
  {
    if replies == [] then [] else NoticeOf(replies[0]) + Notices(replies[1..])
  }

  datatype Event = Finish | Receive(command: Command)

  function Refuse(a: Device, reason: string): (Device, seq<Notice>)
  {
    (a.(state := Failed, reason := reason), [Refused(reason)])
  }

  function UploadCheck(a: Device): Validation
  {
    if a.samples == [] then Invalid("EMPTY_MANIFEST")
    else if exists i | 0 <= i < |a.samples| :: |a.samples[i].joints| != a.meta.dof then Invalid("DOF_MISMATCH")
    else if |a.samples| != a.meta.totalSamples then Invalid("WAYPOINT_COUNT")
    else if !SpansOrdered(a.spans) then Invalid("SEGMENT_ORDER")
    else if SpanScan(a.spans, 0) != Some(a.meta.totalSamples) then Invalid("SEGMENT_COVERAGE")
    else
      var slack := if a.meta.durationUs / 100 > 1000 then a.meta.durationUs / 100 else 1000;
      if a.meta.durationUs - slack <= TotalTime(a.samples) <= a.meta.durationUs + slack
      then Valid else Invalid("TIMING_INVALID")
  }

  predicate Positive(l: ManifestLine)
  {
    l.dof > 0 && l.total > 0 && l.duration > 0 && l.chunk > 0 && l.repeat > 0
  }

  function Receives(a: Device, c: Command): (Device, seq<Notice>)
    requires InRange(c)
  {
    match c
    case Hello(version) =>
      if version == None then Refuse(a, "MALFORMED_HELLO")
      else if version != Some(PROTOCOL_VERSION) then Refuse(a, "VERSION_MISMATCH")
      else (a, [Greeted(PROTOCOL_VERSION)])
    case UploadManifest(line) =>
      if a.state !in {AtIdle, Completed} then Refuse(a, "NOT_IDLE")
      else if line == None then Refuse(a, "MALFORMED_MANIFEST")
      else if !Positive(line.value) then Refuse(a, "INVALID_MANIFEST")
      else
        var l := line.value;
        (Device(Receiving, a.reason, Meta(l.dof, l.total, l.duration, l.repeat), [], [], l.chunk, 0), [Acknowledged])
    case UploadSegment(segment) =>
      if a.state != Receiving then Refuse(a, "NOT_RECEIVING")
      else if segment == None then Refuse(a, "MALFORMED_SEGMENT")
      else
        var l := segment.value;
        (a.(spans := a.spans + [Span(l.index, l.start, l.count)]), [Acknowledged])
    case UploadSample(joints, dt) =>
      if a.state != Receiving then Refuse(a, "NOT_RECEIVING")
      else if joints == [] then Refuse(a, "MALFORMED_SAMPLE")
      else if |joints| != a.meta.dof then Refuse(a, "DOF_MISMATCH")
      else if !AllParsed(joints) || dt == None || dt.value < 0 || dt.value >= 0x8000_0000 then Refuse(a, "MALFORMED_SAMPLE")
      else
        var full := a.sinceAck + 1 >= a.chunk;
        (a.(samples := a.samples + [Waypoint(Parsed(joints), dt.value)], sinceAck := if full then 0 else a.sinceAck + 1),
         if full then [Acknowledged] else [])
    case EndUpload =>
      if a.state != Receiving then Refuse(a, "NOT_RECEIVING")
      else if UploadCheck(a) != Valid then Refuse(a, UploadCheck(a).reason)
      else (a.(state := Ready), [UploadReady])
    case Execute =>
      if a.state != Ready then Refuse(a, "NOT_READY") else (a.(state := Executing), [Acknowledged])
    case StopCommand =>
      if a.state in {AtIdle, Receiving} then Refuse(a, "NOT_ACTIVE") else (SWITCHED_ON, [Acknowledged])
    case Status =>
      (a, [if a.state == Failed then FailureIs(a.reason) else StateIs(a.state)])
    case FetchSamples(count) =>
      if a.state !in {AtIdle, Ready, Completed} then Refuse(a, "NOT_AVAILABLE")
      else if count == None || count.value <= 0 then Refuse(a, "MALFORMED")
      else (a, [Acknowledged])
    case Unrecognized => Refuse(a, "UNKNOWN_COMMAND")
  }

  /** Commands with no number too large for the word that holds it on either device, and with joints inside the envelope. */
  predicate InRange(c: Command)
  {
    match c
    case Hello(version) => version.Some? ==> 0 <= version.value < 0x8000_0000
    case UploadManifest(line) =>
      line.Some? ==>
        var l := line.value;
        && 0 <= l.dof < 256 && 0 <= l.total < 0x8000_0000 && 0 <= l.duration < 0x1_0000_0000
        && 0 <= l.chunk < 0x8000_0000 && 0 <= l.repeat < 0x8000_0000
    case UploadSegment(segment) =>
      segment.Some? ==>
        var l := segment.value;
        0 <= l.index < 256 && 0 <= l.start < 0x8000_0000 && 0 <= l.count < 0x8000_0000
    case UploadSample(joints, dt) =>
      (dt.Some? ==> dt.value < 0x8000_0000) && (AllParsed(joints) ==> ServoSafety.InEnvelope(Parsed(joints)))
    case FetchSamples(count) => count.Some? ==> count.value < 0x8000_0000
    case _ => true
  }

  predicate Enabled(a: Device, e: Event)
  {
    match e case Finish => a.state == Executing case Receive(c) => InRange(c)
  }

  function Step(a: Device, e: Event): (Device, seq<Notice>)
    requires Enabled(a, e)
  {
    match e case Finish => (a.(state := Completed), []) case Receive(c) => Receives(a, c)
  }

  predicate Legal(a: Device, events: seq<Event>)
    decreases |events|
  {
    events == [] || (Enabled(a, events[0]) && Legal(Step(a, events[0]).0, events[1..]))
  }

  function Behaviour(a: Device, events: seq<Event>): (Device, seq<Notice>)
    requires Legal(a, events)
    decreases |events|
  {
    if events == [] then (a, [])
    else
      var (b, notices) := Step(a, events[0]);
      var (final, later) := Behaviour(b, events[1..]);
      (final, notices + later)
  }

  /** A legal run continued by a legal run. */
  lemma {:induction false} BehaviourConcat(a: Device, first: seq<Event>, rest: seq<Event>)
    requires Legal(a, first) && Legal(Behaviour(a, first).0, rest)
    ensures Legal(a, first + rest)
    ensures Behaviour(a, first + rest).0 == Behaviour(Behaviour(a, first).0, rest).0
    ensures Behaviour(a, first + rest).1 == Behaviour(a, first).1 + Behaviour(Behaviour(a, first).0, rest).1
    decreases |first|
  {
    if first == [] {
      assert first + rest == rest;
    } else {
      assert (first + rest)[1..] == first[1..] + rest;
      BehaviourConcat(Step(a, first[0]).0, first[1..], rest);
    }
  }

  lemma SingleStep(a: Device, e: Event)
    requires Enabled(a, e)
    ensures Legal(a, [e]) && Behaviour(a, [e]) == Step(a, e)
  {
    assert [e][1..] == [];
    var notices := Step(a, e).1;
    assert notices + [] == notices;
  }

  /** What is known of an upload made of in-range commands. */
  predicate Fits(a: Device)
  {
    && a.meta.dof < 256 && a.meta.totalSamples < 0x8000_0000
    && (forall i | 0 <= i < |a.samples| :: ServoSafety.InEnvelope(a.samples[i].joints))
    && (forall i | 0 <= i < |a.spans| :: SpanFits(a.spans[i]))
  }

  predicate SpanFits(s: Span) { s.index < 256 && s.start < 0x8000_0000 && s.count < 0x8000_0000 }

  lemma ReceivesFits(a: Device, c: Command)
    requires InRange(c) && Fits(a)
    ensures Fits(Receives(a, c).0)
  {
  }

  /** Acknowledgements are conserved: `chunk` samples each for the acknowledgements given, and the rest owed. */
  lemma {:induction false} ChunksAcknowledged(a: Device, lines: seq<Command>)
    requires a.state == Receiving && a.chunk >= 1 && a.sinceAck < a.chunk
    requires forall i | 0 <= i < |lines| :: AcceptedSample(a, lines[i])
    ensures Legal(a, Received(lines))
    ensures var (b, notices) := Behaviour(a, Received(lines));
            && b.state == Receiving && b.chunk == a.chunk && b.sinceAck < b.chunk
            && |b.samples| == |a.samples| + |lines|
            && (forall n | n in notices :: n == Acknowledged)
            && a.chunk * |notices| + b.sinceAck == a.sinceAck + |lines|
    decreases |lines|
  {
    if lines != [] {
      var (b, notices) := Receives(a, lines[0]);
      assert Received(lines)[1..] == Received(lines[1..]);
      ChunksAcknowledged(b, lines[1..]);
      var later := Behaviour(b, Received(lines[1..])).1;
      assert a.chunk * (|later| + 1) == a.chunk * |later| + a.chunk;
    }
  }

  function Received(lines: seq<Command>): seq<Event>
  {
    seq(|lines|, i requires 0 <= i < |lines| => Receive(lines[i]))
  }

  predicate AcceptedSample(a: Device, c: Command)
  {
    && c.UploadSample? && InRange(c) && |c.joints| == a.meta.dof > 0 && AllParsed(c.joints)
    && c.dt.Some? && 0 <= c.dt.value < 0x8000_0000
  }
}
