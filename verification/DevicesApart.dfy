/** Where firmware and simulator answer differently: numbers too large for the words of
    firmware/esp32/src/protocol.cpp:75-111 or of backend/crates/thalos-runtime/examples/esp-simulator.rs:254-424. */
module DevicesApart {
  import opened Prelude
  import opened Words
  import opened Manifests
  import opened ServoSafety
  import opened Validators
  import opened Wire
  import ProtocolModel
  import opened SimulatorModel
  import opened DeviceProtocol

  /** Whatever 32-bit duration it holds, the firmware accepts no upload that takes more than 2^32 us and 1%. */
  lemma TooLongForAWord(plan: Plan)
    requires plan.meta.durationUs < WORD && TotalTime(plan.samples) > WORD + WORD / 100
    ensures Verdict(plan) != Valid
  {
  }

  /** 6000 s, in three steps of 2000 s. */
  const LONG := ManifestLine(1, 3, 6_000_000_000, 1, 1)
  const LONG_SEGMENT := SegmentLine(0, MoveJ, 0, 3)
  const STILL: seq<Option<real>> := [Some(0.0)]
  const LONG_DT := Some(2_000_000_000)

  const STEP := Waypoint([0.0], 2_000_000_000)
  const STEPS := [STEP, STEP, STEP]

  lemma StepsTime(ws: seq<Waypoint>)
    requires ws == STEPS
    ensures TotalTime(ws) == 6_000_000_000
  {
    assert ws[..2] == [STEP, STEP] && ws[..2][..1] == [STEP] && ws[..2][..1][..0] == [];
    assert TotalTime(ws[..2][..1]) == 2_000_000_000;
    assert TotalTime(ws[..2]) == 4_000_000_000;
  }

  // ----- The firmware -----

  function FirmwareDeclares(s: ProtocolModel.System): ProtocolModel.System
  {
    ProtocolModel.OnSegment(ProtocolModel.OnManifest(s, Some(LONG)).0, Some(LONG_SEGMENT)).0
  }

  function FirmwareUpload(s: ProtocolModel.System): ProtocolModel.Outcome
  {
    var two := ProtocolModel.OnSample(ProtocolModel.OnSample(FirmwareDeclares(s), STILL, LONG_DT).0, STILL, LONG_DT).0;
    ProtocolModel.OnEndUpload(ProtocolModel.OnSample(two, STILL, LONG_DT).0)
  }

  function Declared(samples: seq<Waypoint>): Plan
  {
    Plan(Metadata(1, 3, WORD - 1, 1), [Segment(0, MoveJ, 0, 3)], samples)
  }

  lemma FirmwareDeclared(s: ProtocolModel.System)
    requires s.p.state == AtIdle
    ensures var p := FirmwareDeclares(s).p; p.state == Receiving && p.chunk == 1 && p.sinceAck == 0 && p.plan == Declared([])
  {
    assert [] + [Segment(0, MoveJ, 0, 3)] == [Segment(0, MoveJ, 0, 3)];
  }

  lemma FirmwareTakesStep(s: ProtocolModel.System, ws: seq<Waypoint>)
    requires s.p.state == Receiving && s.p.chunk == 1 && s.p.sinceAck == 0 && s.p.plan == Declared(ws)
    ensures ProtocolModel.OnSample(s, STILL, LONG_DT).0.p == s.p.(plan := Declared(ws + [STEP]))
  {
    assert Parsed(STILL) == [0.0];
  }

  lemma FirmwareVerdict(ws: seq<Waypoint>)
    requires ws == STEPS
    ensures Verdict(Declared(ws)) == Invalid("TIMING_INVALID")
  {
    StepsTime(ws);
    TooLongForAWord(Declared(ws));
    assert Declared(ws).segments[1..] == [];
    assert CoverageScan(Declared(ws).segments, 0) == CoverageScan([], 3);
  }

  lemma FirmwareRefuses(s: ProtocolModel.System)
    requires s.p.state == AtIdle
    ensures FirmwareUpload(s).1 == [ErrorReply("TIMING_INVALID")]
  {
    FirmwareDeclared(s);
    var declared := FirmwareDeclares(s);
    FirmwareTakesStep(declared, []);
    var one := ProtocolModel.OnSample(declared, STILL, LONG_DT).0;
    FirmwareTakesStep(one, [] + [STEP]);
    var two := ProtocolModel.OnSample(one, STILL, LONG_DT).0;
    FirmwareTakesStep(two, [] + [STEP] + [STEP]);
    FirmwareVerdict([] + [STEP] + [STEP] + [STEP]);
  }

  // ----- The simulator -----

  function SimulatorDeclares(m: Sim): Sim
  {
    SimulatorModel.OnSegment(SimulatorModel.OnManifest(m, Some(LONG)).0, Some(LONG_SEGMENT)).0
  }

  function SimulatorUpload(m: Sim): Reaction
  {
    var two := SimulatorModel.OnSample(SimulatorModel.OnSample(SimulatorDeclares(m), STILL, LONG_DT).0, STILL, LONG_DT).0;
    SimulatorModel.OnEndUpload(SimulatorModel.OnSample(two, STILL, LONG_DT).0)
  }

  predicate Taking(m: Sim, ws: seq<Waypoint>)
  {
    && m.state == Receiving && m.chunk == 1 && m.sinceAck == 0 && m.uploaded == ws
    && m.meta == Meta(1, 3, 6_000_000_000, 1) && m.spans == [Span(0, 0, 3)]
  }

  lemma SimulatorDeclared(m: Sim)
    requires m.state == AtIdle
    ensures Taking(SimulatorDeclares(m), [])
  {
    assert [] + [Span(0, 0, 3)] == [Span(0, 0, 3)];
  }

  lemma SimulatorTakesStep(m: Sim, ws: seq<Waypoint>)
    requires Taking(m, ws)
    ensures Taking(SimulatorModel.OnSample(m, STILL, LONG_DT).0, ws + [STEP])
  {
    assert Parsed(STILL) == [0.0];
  }

  lemma SimulatorReady(m: Sim, ws: seq<Waypoint>)
    requires Taking(m, ws) && ws == STEPS
    ensures SimulatorModel.OnEndUpload(m).1 == [ReadyReply]
  {
    StepsTime(ws);
    assert m.spans[1..] == [] && SpanScan(m.spans, 0) == SpanScan([], 3);
    assert UploadVerdict(m) == Valid;
  }

  lemma SimulatorAccepts(m: Sim)
    requires m.state == AtIdle
    ensures SimulatorUpload(m).1 == [ReadyReply]
  {
    SimulatorDeclared(m);
    var declared := SimulatorDeclares(m);
    SimulatorTakesStep(declared, []);
    var one := SimulatorModel.OnSample(declared, STILL, LONG_DT).0;
    SimulatorTakesStep(one, [] + [STEP]);
    var two := SimulatorModel.OnSample(one, STILL, LONG_DT).0;
    SimulatorTakesStep(two, [] + [STEP] + [STEP]);
    SimulatorReady(SimulatorModel.OnSample(two, STILL, LONG_DT).0, [] + [STEP] + [STEP] + [STEP]);
  }

  /** From idle, the simulator is ready for an upload of 6000 s and the firmware refuses it. Only the
      duration is out of range. */
  lemma DurationTellsApart(s: ProtocolModel.System, m: Sim)
    requires s.p.state == AtIdle && m.state == AtIdle
    ensures FirmwareUpload(s).1 == [ErrorReply("TIMING_INVALID")] && SimulatorUpload(m).1 == [ReadyReply]
    ensures !InRange(UploadManifest(Some(LONG))) && InRange(UploadManifest(Some(LONG.(duration := WORD - 1))))
    ensures InRange(UploadSegment(Some(LONG_SEGMENT))) && InRange(UploadSample(STILL, LONG_DT))
  {
    FirmwareRefuses(s);
    SimulatorAccepts(m);
    assert Parsed(STILL) == [0.0];
  }

  // ----- Numbers too large for one of the two -----

  /** A HELLO version that neither can hold gets a different error from each. */
  lemma VersionTellsApart(s: ProtocolModel.System, m: Sim, version: int)
    requires version >= WORD
    ensures ProtocolModel.OnHello(s, Some(version)).1 == [ErrorReply("VERSION_MISMATCH")]
    ensures SimulatorModel.OnHello(m, Some(version)).1 == [ErrorReply("MALFORMED_HELLO")]
    ensures !InRange(Hello(Some(version)))
  {
  }

  /** Where SAMPLES is served, the firmware serves any count and the simulator none of 2^64 or more. */
  lemma CountTellsApart(s: ProtocolModel.System, m: Sim, count: int)
    requires s.p.state == m.state == Completed && count >= LONG_WORD && s.x.next <= |s.x.slots|
    ensures ProtocolModel.OnFetchSamples(s, Some(count)).1 != [] && ProtocolModel.OnFetchSamples(s, Some(count)).1[0] == Ok
    ensures SimulatorModel.OnFetchSamples(m, Some(count)).1 == [ErrorReply("MALFORMED")]
    ensures !InRange(FetchSamples(Some(count)))
  {
  }
}
