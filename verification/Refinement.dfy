/** Firmware and simulator both refine the device protocol. */
module Refinement {
  import opened Prelude
  import opened Words
  import opened Manifests
  import opened ServoSafety
  import opened Servos
  import opened Validators
  import opened Wire
  import opened ExecutorModel
  import ProtocolModel
  import opened SimulatorModel
  import opened DeviceProtocol
  import opened FirmwareModel

  // ----- What each device shows of itself -----

  function Spans(segments: seq<Segment>): seq<Span>
  {
    if segments == [] then []
    else [Span(segments[0].index, segments[0].start, segments[0].count)] + Spans(segments[1..])
  }

  function OfFirmware(p: ProtocolModel.Proto): Device
  {
    var m := p.plan.meta;
    Device(p.state, p.reason, Meta(m.dof, m.totalSamples, m.durationUs, m.repeatCount),
           Spans(p.plan.segments), p.plan.samples, p.chunk, p.sinceAck)
  }

  function OfSimulator(s: Sim): Device
  {
    Device(s.state, s.reason, s.meta, s.spans, s.uploaded, s.chunk, s.sinceAck)
  }

  // ----- Upload checks agree -----

  lemma {:induction false} SpansAt(segments: seq<Segment>, i: nat)
    requires i < |segments|
    ensures |Spans(segments)| == |segments|
    ensures Spans(segments)[i] == Span(segments[i].index, segments[i].start, segments[i].count)
  {
    if i > 0 { SpansAt(segments[1..], i - 1); } else if |segments| > 1 { SpansAt(segments[1..], 0); }
  }

  lemma {:induction false} SpansAppend(segments: seq<Segment>, last: Segment)
    ensures Spans(segments + [last]) == Spans(segments) + [Span(last.index, last.start, last.count)]
  {
    if segments != [] {
      assert (segments + [last])[1..] == segments[1..] + [last];
      SpansAppend(segments[1..], last);
    }
  }

  lemma SpansOrderedSame(segments: seq<Segment>)
    ensures SpansOrdered(Spans(segments)) <==> SegmentsOrdered(segments)
  {
    if segments != [] { SpansAt(segments, 0); }
    forall i | 0 <= i < |segments|
      ensures Spans(segments)[i].index == segments[i].index
    {
      SpansAt(segments, i);
    }
  }

  /** In-range segments do not wrap: the 32-bit scan is the unbounded one. */
  lemma {:induction false} ScansSame(segments: seq<Segment>, next: u32)
    requires forall i | 0 <= i < |segments| :: segments[i].start < 0x8000_0000 && segments[i].count < 0x8000_0000
    ensures CoverageScan(segments, next) == SpanScan(Spans(segments), next)
  {
    if segments != [] && segments[0].start <= next {
      var end := segments[0].start + segments[0].count;
      ScansSame(segments[1..], if end > next then end else next);
    }
  }

  lemma FirmwareCheckSame(p: ProtocolModel.Proto)
    requires Fits(OfFirmware(p))
    ensures Verdict(p.plan) == UploadCheck(OfFirmware(p))
  {
    SpansOrderedSame(p.plan.segments);
    forall i | 0 <= i < |p.plan.segments|
      ensures p.plan.segments[i].start < 0x8000_0000 && p.plan.segments[i].count < 0x8000_0000
    {
      SpansAt(p.plan.segments, i);
      assert SpanFits(OfFirmware(p).spans[i]);
    }
    ScansSame(p.plan.segments, 0);
  }

  lemma SimulatorCheckSame(s: Sim)
    ensures UploadVerdict(s) == UploadCheck(OfSimulator(s))
  {
  }

  // ----- One command -----

  lemma {:induction false} SampleLinesSilent(slots: seq<Sample>)
    ensures Notices(ProtocolModel.SampleLines(slots)) == []
  {
    if slots != [] {
      assert ProtocolModel.SampleLines(slots)[1..] == ProtocolModel.SampleLines(slots[1..]);
      SampleLinesSilent(slots[1..]);
    }
  }

  lemma {:induction false} RecordedLinesSilent(recorded: seq<Recorded>)
    ensures Notices(RecordedLines(recorded)) == []
  {
    if recorded != [] {
      assert RecordedLines(recorded)[1..] == RecordedLines(recorded[1..]);
      RecordedLinesSilent(recorded[1..]);
    }
  }

  /** One reply, and silent sample lines after it. */
  lemma OneNotice(r: Reply, rest: seq<Reply>)
    requires Notices(rest) == []
    ensures Notices([r] + rest) == NoticeOf(r)
    ensures Notices([r]) == NoticeOf(r)
  {
    assert ([r] + rest)[1..] == rest && [r][1..] == [];
    assert NoticeOf(r) + [] == NoticeOf(r);
  }

  predicate Plain(c: Command) { c.Hello? || c.Execute? || c.StopCommand? || c.Status? || c.Unrecognized? }

  lemma FirmwareAnswersPlain(s: ProtocolModel.System, c: Command, t0: u32, t1: u32)
    requires Inv(s) && InRange(c) && Plain(c)
    ensures var (t, replies) := ProtocolModel.Dispatch(s, c, t0, t1);
            (OfFirmware(t.p), Notices(replies)) == Receives(OfFirmware(s.p), c)
  {
    OneNotice(ProtocolModel.Dispatch(s, c, t0, t1).1[0], []);
  }

  lemma FirmwareAnswersManifest(s: ProtocolModel.System, line: Option<ManifestLine>)
    requires Inv(s) && InRange(UploadManifest(line))
    ensures var (t, replies) := ProtocolModel.OnManifest(s, line);
            (OfFirmware(t.p), Notices(replies)) == Receives(OfFirmware(s.p), UploadManifest(line))
  {
    OneNotice(ProtocolModel.OnManifest(s, line).1[0], []);
  }

  lemma FirmwareAnswersSegment(s: ProtocolModel.System, segment: Option<SegmentLine>)
    requires Inv(s) && InRange(UploadSegment(segment))
    ensures var (t, replies) := ProtocolModel.OnSegment(s, segment);
            (OfFirmware(t.p), Notices(replies)) == Receives(OfFirmware(s.p), UploadSegment(segment))
  {
    OneNotice(ProtocolModel.OnSegment(s, segment).1[0], []);
    if segment.Some? {
      var l := segment.value;
      SpansAppend(s.p.plan.segments, Segment(l.index, l.instruction, l.start, l.count));
    }
  }

  lemma FirmwareAnswersSample(s: ProtocolModel.System, joints: seq<Option<real>>, dt: Option<int>)
    requires Inv(s) && InRange(UploadSample(joints, dt))
    ensures var (t, replies) := ProtocolModel.OnSample(s, joints, dt);
            (OfFirmware(t.p), Notices(replies)) == Receives(OfFirmware(s.p), UploadSample(joints, dt))
  {
    var replies := ProtocolModel.OnSample(s, joints, dt).1;
    if replies != [] { OneNotice(replies[0], []); }
  }

  lemma FirmwareAnswersEnd(s: ProtocolModel.System)
    requires Inv(s) && Fits(OfFirmware(s.p))
    ensures var (t, replies) := ProtocolModel.OnEndUpload(s);
            (OfFirmware(t.p), Notices(replies)) == Receives(OfFirmware(s.p), EndUpload)
  {
    FirmwareCheckSame(s.p);
    OneNotice(ProtocolModel.OnEndUpload(s).1[0], []);
  }

  lemma FirmwareAnswersFetch(s: ProtocolModel.System, count: Option<int>)
    requires Inv(s) && InRange(FetchSamples(count))
    ensures var (t, replies) := ProtocolModel.OnFetchSamples(s, count);
            (OfFirmware(t.p), Notices(replies)) == Receives(OfFirmware(s.p), FetchSamples(count))
  {
    var replies := ProtocolModel.OnFetchSamples(s, count).1;
    if replies[0] == Ok {
      SampleLinesSilent(s.x.slots[..Min(ReadInt(count.value), s.x.next)]);
      assert replies[1..] == ProtocolModel.SampleLines(s.x.slots[..Min(ReadInt(count.value), s.x.next)]);
      assert replies == [Ok] + replies[1..];
      OneNotice(Ok, replies[1..]);
    } else {
      OneNotice(replies[0], []);
    }
  }

  /** The firmware's answer to one command is the protocol's. */
  lemma FirmwareAnswers(s: ProtocolModel.System, c: Command, t0: u32, t1: u32)
    requires Inv(s) && Fits(OfFirmware(s.p)) && InRange(c)
    ensures var (t, replies) := ProtocolModel.Dispatch(s, c, t0, t1);
            (OfFirmware(t.p), Notices(replies)) == Receives(OfFirmware(s.p), c)
  {
    match c
    case UploadManifest(line) => FirmwareAnswersManifest(s, line);
    case UploadSegment(segment) => FirmwareAnswersSegment(s, segment);
    case UploadSample(joints, dt) => FirmwareAnswersSample(s, joints, dt);
    case EndUpload => FirmwareAnswersEnd(s);
    case FetchSamples(count) => FirmwareAnswersFetch(s, count);
    case _ => FirmwareAnswersPlain(s, c, t0, t1);
  }

  /** The simulator's answer to one command is the protocol's, after it has finished an execution
      if this is the poll at which it does. */
  predicate FinishesAt(s: Sim, c: Command)
  {
    s.state == Executing && c.Status? && s.execStep > TotalSteps(s)
  }

  function Settled(s: Sim, c: Command): Device
  {
    if FinishesAt(s, c) then OfSimulator(s).(state := Completed) else OfSimulator(s)
  }

  lemma SimulatorAnswersFetch(s: Sim, count: Option<int>)
    requires s.samplesPerRun > 0 && InRange(FetchSamples(count))
    ensures var (t, replies) := SimulatorModel.OnFetchSamples(s, count);
            (OfSimulator(t), Notices(replies)) == Receives(OfSimulator(s), FetchSamples(count))
  {
    if s.state in {AtIdle, Ready, Completed} && count.Some? && count.value > 0 {
      var sent := s.recorded[..Min(count.value, |s.recorded|)];
      RecordedLinesSilent(sent);
      OneNotice(Ok, RecordedLines(sent));
    } else {
      OneNotice(SimulatorModel.OnFetchSamples(s, count).1[0], []);
    }
  }

  lemma SimulatorAnswersStatus(s: Sim)
    requires s.samplesPerRun > 0
    ensures var (t, replies) := SimulatorModel.OnStatus(s);
            (OfSimulator(t), Notices(replies)) == Receives(Settled(s, Status), Status)
  {
    OneNotice(SimulatorModel.OnStatus(s).1[0], []);
  }

  lemma SimulatorAnswersUpload(s: Sim, c: Command)
    requires s.samplesPerRun > 0 && InRange(c) && (c.EndUpload? || c.UploadSegment? || c.UploadSample?)
    ensures var (t, replies) := HandleCommand(s, c);
            (OfSimulator(t), Notices(replies)) == Receives(OfSimulator(s), c)
  {
    SimulatorCheckSame(s);
    var replies := HandleCommand(s, c).1;
    if replies != [] { OneNotice(replies[0], []); }
  }

  lemma SimulatorAnswersPlain(s: Sim, c: Command)
    requires s.samplesPerRun > 0 && InRange(c) && (Plain(c) || c.UploadManifest?) && !c.Status?
    ensures var (t, replies) := HandleCommand(s, c);
            (OfSimulator(t), Notices(replies)) == Receives(OfSimulator(s), c)
  {
    OneNotice(HandleCommand(s, c).1[0], []);
  }

  lemma SimulatorAnswers(s: Sim, c: Command)
    requires s.samplesPerRun > 0 && InRange(c)
    ensures var (t, replies) := HandleCommand(s, c);
            (OfSimulator(t), Notices(replies)) == Receives(Settled(s, c), c)
  {
    match c
    case Status => SimulatorAnswersStatus(s);
    case FetchSamples(count) => SimulatorAnswersFetch(s, count);
    case EndUpload => SimulatorAnswersUpload(s, c);
    case UploadSegment(_) => SimulatorAnswersUpload(s, c);
    case UploadSample(_, _) => SimulatorAnswersUpload(s, c);
    case _ => SimulatorAnswersPlain(s, c);
  }

  lemma SimulatorKeepsSize(s: Sim, c: Command)
    requires s.samplesPerRun > 0
    ensures HandleCommand(s, c).0.samplesPerRun == s.samplesPerRun
  {
  }

  /** Outside the envelope they part: the simulator takes a sample that the firmware refuses. */
  lemma EnvelopeTellsApart(s: ProtocolModel.System, m: Sim, joints: seq<Option<real>>, dt: Option<int>)
    requires OfFirmware(s.p) == OfSimulator(m) && s.p.state == Receiving
    requires |joints| == m.meta.dof > 0 && AllParsed(joints) && dt.Some? && 0 <= dt.value < 0x8000_0000
    requires !InEnvelope(Parsed(joints))
    ensures ProtocolModel.OnSample(s, joints, dt).1 == [ErrorReply("INVALID_JOINT")]
    ensures SimulatorModel.OnSample(m, joints, dt).0.state == Receiving
    ensures |SimulatorModel.OnSample(m, joints, dt).0.uploaded| == |m.uploaded| + 1
  {
  }

  // ----- Whole runs -----

  predicate TicksInRange(ticks: seq<Tick>)
  {
    forall i | 0 <= i < |ticks| :: ticks[i].command.Some? ==> InRange(ticks[i].command.value)
  }

  /** The protocol events of one turn of the firmware: a finish if the poll notices one, and the command. */
  function TurnEvents(s: ProtocolModel.System, tick: Tick): seq<Event>
  {
    (if s.p.state == Executing && s.x.mode == Done then [Finish] else [])
    + (if tick.command.Some? then [Receive(tick.command.value)] else [])
  }

  function FirmwareEvents(s: ProtocolModel.System, d: Drive, ticks: seq<Tick>): seq<Event>
    requires Inv(s)
    decreases |ticks|
  {
    if ticks == [] then []
    else
      LoopKeepsInv(s, d, ticks[0]);
      TurnEvents(s, ticks[0]) + FirmwareEvents(LoopStep(s, d, ticks[0]).0, d, ticks[1..])
  }

  function FirmwareReplies(s: ProtocolModel.System, d: Drive, ticks: seq<Tick>): seq<Reply>
    requires Inv(s)
    decreases |ticks|
  {
    if ticks == [] then []
    else
      LoopKeepsInv(s, d, ticks[0]);
      ProtocolModel.Poll(s, ticks[0].command, ticks[0].t0, ticks[0].t1).1
      + FirmwareReplies(LoopStep(s, d, ticks[0]).0, d, ticks[1..])
  }

  lemma {:induction false} NoticesConcat(a: seq<Reply>, b: seq<Reply>)
    ensures Notices(a + b) == Notices(a) + Notices(b)
  {
    if a == [] {
      assert a + b == b;
    } else {
      assert (a + b)[1..] == a[1..] + b;
      NoticesConcat(a[1..], b);
    }
  }

  lemma FirmwareTurn(s: ProtocolModel.System, tick: Tick)
    requires Inv(s) && Fits(OfFirmware(s.p)) && (tick.command.Some? ==> InRange(tick.command.value))
    ensures Legal(OfFirmware(s.p), TurnEvents(s, tick))
    ensures var (polled, replies) := ProtocolModel.Poll(s, tick.command, tick.t0, tick.t1);
            && Fits(OfFirmware(polled.p))
            && Behaviour(OfFirmware(s.p), TurnEvents(s, tick)) == (OfFirmware(polled.p), Notices(replies))
  {
    var n := ProtocolModel.NoticeCompletion(s);
    PollKeepsInv(s, None, 0, 0);
    var finish := if s.p.state == Executing && s.x.mode == Done then [Finish] else [];
    if finish != [] { SingleStep(OfFirmware(s.p), Finish); }
    assert Behaviour(OfFirmware(s.p), finish) == (OfFirmware(n.p), []);
    if tick.command.Some? {
      FirmwareAnswers(n, tick.command.value, tick.t0, tick.t1);
      ReceivesFits(OfFirmware(n.p), tick.command.value);
      SingleStep(OfFirmware(n.p), Receive(tick.command.value));
      BehaviourConcat(OfFirmware(s.p), finish, [Receive(tick.command.value)]);
      var notices := Receives(OfFirmware(n.p), tick.command.value).1;
      assert [] + notices == notices;
    } else {
      BehaviourConcat(OfFirmware(s.p), finish, []);
    }
  }

  /** Every run of the firmware on in-range commands, at any times and with any wiring, is a run of
      the protocol: the same states and, but for payloads, the same replies. */
  lemma {:induction false} FirmwareRefines(s: ProtocolModel.System, d: Drive, ticks: seq<Tick>)
    requires Inv(s) && Fits(OfFirmware(s.p)) && TicksInRange(ticks)
    ensures Legal(OfFirmware(s.p), FirmwareEvents(s, d, ticks))
    ensures Behaviour(OfFirmware(s.p), FirmwareEvents(s, d, ticks))
         == (OfFirmware(Run(s, d, ticks).0.p), Notices(FirmwareReplies(s, d, ticks)))
    decreases |ticks|
  {
    if ticks != [] {
      var next := LoopStep(s, d, ticks[0]).0;
      LoopKeepsInv(s, d, ticks[0]);
      FirmwareTurn(s, ticks[0]);
      FirmwareRefines(next, d, ticks[1..]);
      NoticesConcat(ProtocolModel.Poll(s, ticks[0].command, ticks[0].t0, ticks[0].t1).1,
                    FirmwareReplies(next, d, ticks[1..]));
      BehaviourConcat(OfFirmware(s.p), TurnEvents(s, ticks[0]), FirmwareEvents(next, d, ticks[1..]));
    }
  }

  /** The protocol events of one line for the simulator: it may finish before answering. */
  function LineEvents(s: Sim, c: Command): seq<Event>
  {
    if FinishesAt(s, c) then [Finish, Receive(c)] else [Receive(c)]
  }

  function SimulatorEvents(s: Sim, lines: seq<Command>): seq<Event>
    requires s.samplesPerRun > 0
    decreases |lines|
  {
    if lines == [] then []
    else
      SimulatorKeepsSize(s, lines[0]);
      LineEvents(s, lines[0]) + SimulatorEvents(HandleCommand(s, lines[0]).0, lines[1..])
  }

  function Serve(s: Sim, lines: seq<Command>): Reaction
    requires s.samplesPerRun > 0
    decreases |lines|
  {
    if lines == [] then (s, [])
    else
      SimulatorKeepsSize(s, lines[0]);
      var (t, replies) := HandleCommand(s, lines[0]);
      var (final, later) := Serve(t, lines[1..]);
      (final, replies + later)
  }

  lemma FinishThenReceive(a: Device, c: Command)
    requires a.state == Executing && InRange(c)
    ensures Legal(a, [Finish, Receive(c)])
    ensures Behaviour(a, [Finish, Receive(c)]) == Receives(a.(state := Completed), c)
  {
    SingleStep(a, Finish);
    SingleStep(a.(state := Completed), Receive(c));
    BehaviourConcat(a, [Finish], [Receive(c)]);
    assert [Finish] + [Receive(c)] == [Finish, Receive(c)];
    var notices := Receives(a.(state := Completed), c).1;
    assert [] + notices == notices;
  }

  lemma SimulatorTurn(s: Sim, c: Command)
    requires s.samplesPerRun > 0 && InRange(c)
    ensures Legal(OfSimulator(s), LineEvents(s, c))
    ensures Behaviour(OfSimulator(s), LineEvents(s, c)) == Receives(Settled(s, c), c)
  {
    if FinishesAt(s, c) {
      FinishThenReceive(OfSimulator(s), c);
    } else {
      SingleStep(OfSimulator(s), Receive(c));
    }
  }

  /** Every run of the simulator on in-range commands is a run of the same protocol. */
  lemma {:induction false} SimulatorRefines(s: Sim, lines: seq<Command>)
    requires s.samplesPerRun > 0 && forall i | 0 <= i < |lines| :: InRange(lines[i])
    ensures Legal(OfSimulator(s), SimulatorEvents(s, lines))
    ensures Behaviour(OfSimulator(s), SimulatorEvents(s, lines))
         == (OfSimulator(Serve(s, lines).0), Notices(Serve(s, lines).1))
    decreases |lines|
  {
    if lines != [] {
      var (t, replies) := HandleCommand(s, lines[0]);
      SimulatorKeepsSize(s, lines[0]);
      SimulatorAnswers(s, lines[0]);
      SimulatorTurn(s, lines[0]);
      SimulatorRefines(t, lines[1..]);
      NoticesConcat(replies, Serve(t, lines[1..]).1);
      BehaviourConcat(OfSimulator(s), LineEvents(s, lines[0]), SimulatorEvents(t, lines[1..]));
    }
  }

  /** A host cannot tell the two apart while their executions finish at the same points: from
      power-on, the same events lead both to the same state with the same notices. */
  lemma Indistinguishable(s: ProtocolModel.System, d: Drive, ticks: seq<Tick>, perRun: nat, lines: seq<Command>)
    requires Fresh(s) && Inv(s) && TicksInRange(ticks)
    requires forall i | 0 <= i < |lines| :: InRange(lines[i])
    requires FirmwareEvents(s, d, ticks) == SimulatorEvents(PowerOn(perRun), lines)
    ensures OfFirmware(Run(s, d, ticks).0.p) == OfSimulator(Serve(PowerOn(perRun), lines).0)
    ensures Notices(FirmwareReplies(s, d, ticks)) == Notices(Serve(PowerOn(perRun), lines).1)
  {
    assert OfFirmware(s.p) == OfSimulator(PowerOn(perRun)) == SWITCHED_ON;
    FirmwareRefines(s, d, ticks);
    SimulatorRefines(PowerOn(perRun), lines);
  }
}
