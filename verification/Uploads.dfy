/** What an upload leaves in the manifest, told by its lines, and what comes back of it:
    firmware/esp32/src/protocol.cpp:96-276 and 301-379. */
module Uploads {
  import opened Prelude
  import opened Words
  import opened Manifests
  import opened ServoSafety
  import opened Servos
  import opened ExecutorModel
  import opened ExecutorScheduling
  import opened ExecutorTrace
  import opened ProtocolModel
  import opened Wire
  import opened FirmwareModel
  import opened FirmwareRuns

  // ----- One line -----

  /** The waypoint holds the values of a SAMPLE line, in their order. */
  predicate HoldsSample(w: Waypoint, joints: seq<Option<real>>, dt: Option<int>)
  {
    && |w.joints| == |joints| && dt == Some(w.dt)
    && forall i | 0 <= i < |joints| :: joints[i] == Some(w.joints[i])
  }

  /** The segment holds the values of a SEGMENT line, where they fit its fields. */
  predicate HoldsSegment(seg: Segment, l: SegmentLine)
  {
    && seg.instruction == l.instruction
    && (0 <= l.index < 256 ==> seg.index == l.index)
    && (0 <= l.start < 0x8000_0000 ==> seg.start == l.start)
    && (0 <= l.count < 0x8000_0000 ==> seg.count == l.count)
  }

  /** A SAMPLE line that the firmware takes: as many tokens as declared joints, each a number, those of the actuated
      joints within their limits, and a dt that fits a signed word. */
  predicate TakesSample(s: System, joints: seq<Option<real>>, dt: Option<int>)
  {
    && s.p.state == Receiving && 0 < |joints| == s.p.plan.meta.dof
    && (forall i | 0 <= i < |joints| :: joints[i].Some?)
    && (forall ch: Channel | ch < |joints| :: joints[ch].Some? && Limits(ch).minRad <= joints[ch].value <= Limits(ch).maxRad)
    && dt.Some? && 0 <= dt.value < 0x8000_0000
  }

  /** A SAMPLE line is taken just so; then one waypoint with its values is appended and nothing else of the plan
      changes. Otherwise the firmware fails and the plan stays. */
  lemma SampleLineIff(s: System, joints: seq<Option<real>>, dt: Option<int>)
    ensures var t := OnSample(s, joints, dt).0;
            && (t.p.state == Receiving <==> TakesSample(s, joints, dt))
            && (t.p.state == Receiving ==>
                  && |t.p.plan.samples| == |s.p.plan.samples| + 1
                  && t.p.plan.samples[..|s.p.plan.samples|] == s.p.plan.samples
                  && HoldsSample(t.p.plan.samples[|s.p.plan.samples|], joints, dt)
                  && t.p.plan.meta == s.p.plan.meta && t.p.plan.segments == s.p.plan.segments && t.x == s.x)
            && (t.p.state != Receiving ==> t.p.state == Failed && t.p.plan == s.p.plan)
  {
    if AllParsed(joints) {
      assert forall ch: Channel | ch < |joints| :: WithinLimits(ch, Parsed(joints)[ch]) <==>
        Limits(ch).minRad <= joints[ch].value <= Limits(ch).maxRad;
    }
  }

  /** A MANIFEST line that is taken declares its values, where they fit, and empties the plan. */
  lemma ManifestLineHeld(s: System, l: ManifestLine)
    requires OnManifest(s, Some(l)).0.p.state == Receiving
    ensures var p := OnManifest(s, Some(l)).0.p;
            && p.plan.samples == [] && p.plan.segments == [] && p.sinceAck == 0
            && (0 <= l.dof < 256 ==> p.plan.meta.dof == l.dof)
            && (0 <= l.total < 0x8000_0000 ==> p.plan.meta.totalSamples == l.total)
            && (0 <= l.duration < WORD ==> p.plan.meta.durationUs == l.duration)
            && (0 <= l.chunk < 0x8000_0000 ==> p.chunk == l.chunk)
            && (0 <= l.repeat < 0x8000_0000 ==> p.plan.meta.repeatCount == l.repeat)
    ensures s.p.state == AtIdle || s.p.state == Completed
  {
  }

  // ----- Whole uploads -----

  /** An upload is under way at the beginning and after every turn. */
  predicate StaysReceiving(s: System, d: Drive, ticks: seq<Tick>)
    requires Inv(s)
    decreases |ticks|
  {
    s.p.state == Receiving && (ticks == [] || (
      LoopKeepsInv(s, d, ticks[0]);
      StaysReceiving(LoopStep(s, d, ticks[0]).0, d, ticks[1..])))
  }

  /** The SAMPLE lines of the turns, in order. */
  function SampleLinesOf(ticks: seq<Tick>): seq<(seq<Option<real>>, Option<int>)>
  {
    if ticks == [] then [] else SampleIn(ticks[0].command) + SampleLinesOf(ticks[1..])
  }

  /** The SEGMENT lines of the turns, in order. */
  function SegmentLinesOf(ticks: seq<Tick>): seq<Option<SegmentLine>>
  {
    if ticks == [] then [] else SegmentIn(ticks[0].command) + SegmentLinesOf(ticks[1..])
  }

  /** The samples after the first `n` hold the lines, one each and in order. */
  predicate HoldSamples(samples: seq<Waypoint>, n: nat, lines: seq<(seq<Option<real>>, Option<int>)>)
  {
    |samples| == n + |lines| && forall k: nat | k < |lines| :: HoldsSample(samples[n + k], lines[k].0, lines[k].1)
  }

  predicate HoldSegments(segments: seq<Segment>, n: nat, lines: seq<Option<SegmentLine>>)
  {
    |segments| == n + |lines| && forall k: nat | k < |lines| :: lines[k].Some? && HoldsSegment(segments[n + k], lines[k].value)
  }

  function SampleIn(c: Option<Command>): seq<(seq<Option<real>>, Option<int>)>
  {
    if c.Some? && c.value.UploadSample? then [(c.value.joints, c.value.dt)] else []
  }

  function SegmentIn(c: Option<Command>): seq<Option<SegmentLine>>
  {
    if c.Some? && c.value.UploadSegment? then [c.value.segment] else []
  }

  predicate Adds(p: Plan, q: Plan, c: Option<Command>)
  {
    && q.meta == p.meta && p.samples <= q.samples && p.segments <= q.segments
    && HoldSamples(q.samples, |p.samples|, SampleIn(c)) && HoldSegments(q.segments, |p.segments|, SegmentIn(c))
  }

  lemma SampleAdds(s: System, joints: seq<Option<real>>, dt: Option<int>)
    requires OnSample(s, joints, dt).0.p.state == Receiving
    ensures Adds(s.p.plan, OnSample(s, joints, dt).0.p.plan, Some(UploadSample(joints, dt)))
  {
    SampleLineIff(s, joints, dt);
  }

  lemma SegmentAdds(s: System, segment: Option<SegmentLine>)
    requires OnSegment(s, segment).0.p.state == Receiving
    ensures Adds(s.p.plan, OnSegment(s, segment).0.p.plan, Some(UploadSegment(segment)))
  {
  }

  lemma OtherAdds(s: System, c: Command, t0: u32, t1: u32)
    requires Wellformed(s) && s.p.state == Receiving && Dispatch(s, c, t0, t1).0.p.state == Receiving
    requires !c.UploadSample? && !c.UploadSegment?
    ensures Dispatch(s, c, t0, t1).0.p.plan == s.p.plan
  {
  }

  /** What one turn of an upload adds to the plan. */
  lemma UploadTurnAdds(s: System, d: Drive, tick: Tick)
    requires Inv(s) && s.p.state == Receiving && LoopStep(s, d, tick).0.p.state == Receiving
    ensures Adds(s.p.plan, LoopStep(s, d, tick).0.p.plan, tick.command)
  {
    if tick.command.Some? { DispatchAdds(s, tick.command.value, tick.t0, tick.t1); }
  }

  lemma DispatchAdds(s: System, c: Command, t0: u32, t1: u32)
    requires Wellformed(s) && s.p.state == Receiving && Dispatch(s, c, t0, t1).0.p.state == Receiving
    ensures Adds(s.p.plan, Dispatch(s, c, t0, t1).0.p.plan, Some(c))
  {
    match c
    case UploadSample(joints, dt) => SampleAdds(s, joints, dt);
    case UploadSegment(segment) => SegmentAdds(s, segment);
    case _ => OtherAdds(s, c, t0, t1);
  }

  lemma SamplesFollow(a: seq<Waypoint>, b: seq<Waypoint>, c: seq<Waypoint>,
                      first: seq<(seq<Option<real>>, Option<int>)>, rest: seq<(seq<Option<real>>, Option<int>)>)
    requires a <= b <= c && HoldSamples(b, |a|, first) && HoldSamples(c, |b|, rest)
    ensures HoldSamples(c, |a|, first + rest)
  {
    forall k: nat | k < |first + rest|
      ensures HoldsSample(c[|a| + k], (first + rest)[k].0, (first + rest)[k].1)
    {
      if k < |first| {
        assert HoldsSample(b[|a| + k], first[k].0, first[k].1);
      } else {
        assert HoldsSample(c[|b| + (k - |first|)], rest[k - |first|].0, rest[k - |first|].1);
      }
    }
  }

  lemma SegmentsFollow(a: seq<Segment>, b: seq<Segment>, c: seq<Segment>,
                       first: seq<Option<SegmentLine>>, rest: seq<Option<SegmentLine>>)
    requires a <= b <= c && HoldSegments(b, |a|, first) && HoldSegments(c, |b|, rest)
    ensures HoldSegments(c, |a|, first + rest)
  {
    forall k: nat | k < |first + rest|
      ensures (first + rest)[k].Some? && HoldsSegment(c[|a| + k], (first + rest)[k].value)
    {
      if k < |first| {
        assert first[k].Some? && HoldsSegment(b[|a| + k], first[k].value);
      } else {
        assert rest[k - |first|].Some? && HoldsSegment(c[|b| + (k - |first|)], rest[k - |first|].value);
      }
    }
  }

  /** Through any turns of an upload, the plan grows by one sample for each SAMPLE line and one segment for each
      SEGMENT line, value by value and in order. */
  lemma {:induction false} UploadIsItsLines(s: System, d: Drive, ticks: seq<Tick>)
    requires Inv(s) && StaysReceiving(s, d, ticks)
    ensures var (p, q) := (s.p.plan, Run(s, d, ticks).0.p.plan);
            && q.meta == p.meta && p.samples <= q.samples && p.segments <= q.segments
            && HoldSamples(q.samples, |p.samples|, SampleLinesOf(ticks))
            && HoldSegments(q.segments, |p.segments|, SegmentLinesOf(ticks))
            && Run(s, d, ticks).0.p.state == Receiving
    decreases |ticks|
  {
    if ticks != [] {
      var next := LoopStep(s, d, ticks[0]).0;
      LoopKeepsInv(s, d, ticks[0]);
      UploadTurnAdds(s, d, ticks[0]);
      UploadIsItsLines(next, d, ticks[1..]);
      var final := Run(next, d, ticks[1..]).0.p.plan;
      SamplesFollow(s.p.plan.samples, next.p.plan.samples, final.samples, SampleIn(ticks[0].command), SampleLinesOf(ticks[1..]));
      SegmentsFollow(s.p.plan.segments, next.p.plan.segments, final.segments, SegmentIn(ticks[0].command), SegmentLinesOf(ticks[1..]));
    }
  }

  // ----- What comes back -----

  /** While an execution runs, STATUS reports the share of all waypoints consumed and the joints of the next one. */
  lemma StatusTells(s: System)
    requires Inv(s) && s.p.state == Executing && s.x.mode == Running
    ensures var ws := s.p.plan.samples;
            && s.x.index < |ws| && Workload(s.x, ws) > 0
            && OnStatus(s).1 == [StatusRunning(Consumed(s.x, ws) as real / Workload(s.x, ws) as real, ws[s.x.index].joints)]
  {
    ProgressIsShare(s.x, s.p.plan.samples);
  }

  /** Where SAMPLES is served, it answers OK and then the first recorded samples, as many as asked for or as there are. */
  lemma FetchReturnsFirst(s: System, count: int)
    requires Wellformed(s) && 0 < count < 0x8000_0000 && s.p.state in {AtIdle, Ready, Completed}
    ensures var replies := OnFetchSamples(s, Some(count)).1;
            && |replies| == 1 + (if count <= s.x.next then count else s.x.next) && replies[0] == Ok
            && forall i | 1 <= i < |replies| :: replies[i] == SampleLine(s.x.slots[i - 1].timestamp, s.x.slots[i - 1].joints)
    ensures OnFetchSamples(s, Some(count)).0.x.slots == [] && OnFetchSamples(s, Some(count)).0.p == s.p
  {
  }

  /** The reply holds the joints of a SAMPLE line, in their order. */
  predicate Returns(r: Reply, joints: seq<Option<real>>)
  {
    r.SampleLine? && |r.joints| == |joints| && forall i | 0 <= i < |joints| :: joints[i] == Some(r.joints[i])
  }

  lemma PlanReturns(plan: Plan, lines: seq<(seq<Option<real>>, Option<int>)>)
    requires plan.meta.repeatCount > 0 && HoldSamples(plan.samples, 0, lines)
    ensures |PlanReplies(plan)| == 1 + |lines| && PlanReplies(plan)[0] == Ok
    ensures forall k: nat | k < |lines| :: Returns(PlanReplies(plan)[k + 1], lines[k].0)
  {
    forall k: nat | k < |lines| ensures Returns(PlanReplies(plan)[k + 1], lines[k].0) {
      assert HoldsSample(plan.samples[0 + k], lines[k].0, lines[k].1);
    }
  }

  /** The state after the lines of an upload and its END_UPLOAD. */
  function Uploaded(s: System, d: Drive, lines: seq<Tick>, upload: Tick): System
    requires Inv(s)
  {
    RunIsSafe(s, d, lines);
    LoopKeepsInv(Run(s, d, lines).0, d, upload);
    LoopStep(Run(s, d, lines).0, d, upload).0
  }

  /** What goes up comes back: after an upload that began empty and its completed execution, in which no SAMPLES was
      served, SAMPLES answers one line for each SAMPLE line of the upload, in order and with its joints in order. */
  lemma ComesBack(s: System, d: Drive, lines: seq<Tick>, upload: Tick, ticks: seq<Tick>, count: int)
    requires Inv(s) && s.p.plan.samples == [] && StaysReceiving(s, d, lines) && upload.command == Some(EndUpload)
    requires Inv(Uploaded(s, d, lines, upload)) && StaysLive(Uploaded(s, d, lines, upload), d, ticks) && !Fetches(ticks)
    requires Run(Uploaded(s, d, lines, upload), d, ticks).0.p.state == Completed
    requires |SampleLinesOf(lines)| <= count < 0x8000_0000
    ensures var done := Run(Uploaded(s, d, lines, upload), d, ticks).0;
            && done.x.next <= |done.x.slots|
            && var replies := OnFetchSamples(done, Some(count)).1;
               && |replies| == 1 + |SampleLinesOf(lines)| && replies[0] == Ok
               && forall k: nat | k < |SampleLinesOf(lines)| :: Returns(replies[k + 1], SampleLinesOf(lines)[k].0)
  {
    var r := Run(s, d, lines).0;
    RunIsSafe(s, d, lines);
    UploadIsItsLines(s, d, lines);
    FetchReturnsPlanIff(r, d, upload, ticks, count);
    PlanReturns(r.p.plan, SampleLinesOf(lines));
  }
}
