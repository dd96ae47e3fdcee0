/** Manifest validation: firmware/esp32/src/validator.cpp. */
module Validators {
  import opened Prelude
  import opened Words
  import opened Manifests
  import opened ServoSafety

  datatype Validation = Valid | Invalid(reason: string)

  // ----- What the seven checks decide -----

  predicate DofConsistent(m: Plan)
  {
    forall i | 0 <= i < |m.samples| :: |m.samples[i].joints| == m.meta.dof
  }

  predicate AllInEnvelope(m: Plan)
  {
    forall i | 0 <= i < |m.samples| :: InEnvelope(m.samples[i].joints)
  }

  predicate SegmentsOrdered(segments: seq<Segment>)
  {
    forall i | 1 <= i < |segments| :: segments[i - 1].index < segments[i].index
  }

  /** The scan for gaps: the first sample index not yet covered, or None at a gap.
      The end of a segment is a wrapping `size_t` sum. */
  function CoverageScan(segments: seq<Segment>, next: u32): Option<u32>
  {
    if segments == [] then Some(next)
    else if segments[0].start > next then None
    else
      var end := Add32(segments[0].start, segments[0].count);
      CoverageScan(segments[1..], if end > next then end else next)
  }

  predicate CoverageAccepted(m: Plan)
  {
    CoverageScan(m.segments, 0) == Some(m.meta.totalSamples)
  }

  function TotalTime(ws: seq<Waypoint>): nat
  {
    if ws == [] then 0 else TotalTime(ws[..|ws| - 1]) + ws[|ws| - 1].dt
  }

  /** The sum of every dt matches the declared duration within 1%, or 1000 us if that is more. */
  predicate TimingAccepted(m: Plan)
  {
    var total, declared := TotalTime(m.samples), m.meta.durationUs;
    var tolerance := if declared / 100 > 1000 then declared / 100 else 1000;
    declared - tolerance <= total <= declared + tolerance
  }

  function Verdict(m: Plan): Validation
  {
    if m.samples == [] then Invalid("EMPTY_MANIFEST")
    else if !DofConsistent(m) then Invalid("DOF_MISMATCH")
    else if |m.samples| != m.meta.totalSamples then Invalid("WAYPOINT_COUNT")
    else if !AllInEnvelope(m) then Invalid("INVALID_JOINT")
    else if !SegmentsOrdered(m.segments) then Invalid("SEGMENT_ORDER")
    else if !CoverageAccepted(m) then Invalid("SEGMENT_COVERAGE")
    else if !TimingAccepted(m) then Invalid("TIMING_INVALID")
    else Valid
  }

  /** The reason given is that of the first check that fails, and there is none just when all pass. */
  lemma VerdictTells(m: Plan)
    ensures Verdict(m) == Valid
       <==> && m.samples != [] && DofConsistent(m) && |m.samples| == m.meta.totalSamples && AllInEnvelope(m)
            && SegmentsOrdered(m.segments) && CoverageAccepted(m) && TimingAccepted(m)
    ensures Verdict(m) == Invalid("EMPTY_MANIFEST") <==> m.samples == []
    ensures Verdict(m) == Invalid("DOF_MISMATCH") <==> m.samples != [] && !DofConsistent(m)
    ensures Verdict(m) == Invalid("WAYPOINT_COUNT")
       <==> m.samples != [] && DofConsistent(m) && |m.samples| != m.meta.totalSamples
    ensures Verdict(m) == Invalid("INVALID_JOINT")
       <==> m.samples != [] && DofConsistent(m) && |m.samples| == m.meta.totalSamples && !AllInEnvelope(m)
    ensures Verdict(m) == Invalid("SEGMENT_ORDER")
       ==> DofConsistent(m) && |m.samples| == m.meta.totalSamples && AllInEnvelope(m) && !SegmentsOrdered(m.segments)
    ensures Verdict(m) == Invalid("SEGMENT_COVERAGE") ==> AllInEnvelope(m) && SegmentsOrdered(m.segments) && !CoverageAccepted(m)
    ensures Verdict(m) == Invalid("TIMING_INVALID") ==> SegmentsOrdered(m.segments) && CoverageAccepted(m) && !TimingAccepted(m)
  {
  }

  // ----- The checks as the firmware runs them -----

  method CheckPhysicalEnvelope(joints: seq<real>) returns (ok: bool)
    ensures ok <==> InEnvelope(joints)
  {
    var n := Min(|joints|, CHANNELS);
    for i := 0 to n
      invariant forall ch: Channel | ch < i :: WithinLimits(ch, joints[ch])
    {
      var limits := Limits(i);
      if joints[i] < limits.minRad || joints[i] > limits.maxRad {
        assert !WithinLimits(i, joints[i]);
        return false;
      }
    }
    return true;
  }

  method CheckManifestEnvelope(m: Manifest) returns (ok: bool)
    ensures ok <==> AllInEnvelope(m.Contents())
  {
    for i := 0 to |m.samples|
      invariant forall k | 0 <= k < i :: InEnvelope(m.samples[k].joints)
    {
      var inside := CheckPhysicalEnvelope(m.samples[i].joints);
      if !inside { return false; }
    }
    return true;
  }

  method CheckDofCount(m: Manifest) returns (ok: bool)
    ensures ok <==> DofConsistent(m.Contents())
  {
    for i := 0 to |m.samples|
      invariant forall k | 0 <= k < i :: |m.samples[k].joints| == m.meta.dof
    {
      if |m.samples[i].joints| != m.meta.dof { return false; }
    }
    return true;
  }

  method CheckSegmentsOrdered(m: Manifest) returns (ok: bool)
    ensures ok <==> SegmentsOrdered(m.segments)
  {
    var i := 1;
    while i < |m.segments|
      invariant 1 <= i
      invariant forall k | 1 <= k < i && k < |m.segments| :: m.segments[k - 1].index < m.segments[k].index
    {
      if m.segments[i].index <= m.segments[i - 1].index { return false; }
      i := i + 1;
    }
    return true;
  }

  method CheckSegmentsCoverAllSamples(m: Manifest) returns (ok: bool)
    ensures ok <==> CoverageAccepted(m.Contents())
  {
    var next: u32 := 0;
    for i := 0 to |m.segments|
      invariant CoverageScan(m.segments, 0) == CoverageScan(m.segments[i..], next)
    {
      var seg := m.segments[i];
      if seg.start > next { return false; }
      var end := Add32(seg.start, seg.count);
      if end > next { next := end; }
    }
    return next == m.meta.totalSamples;
  }

  method CheckTimingIntegrity(m: Manifest) returns (ok: bool)
    ensures ok <==> TimingAccepted(m.Contents()) || m.samples == []
  {
    if m.samples == [] { return true; }
    var accumulated := 0;
    for i := 0 to |m.samples|
      invariant accumulated == TotalTime(m.samples[..i])
    {
      assert m.samples[..i + 1][..i] == m.samples[..i];
      accumulated := accumulated + m.samples[i].dt;
    }
    assert m.samples[..|m.samples|] == m.samples;
    var declared := m.meta.durationUs;
    var diff := if accumulated > declared then accumulated - declared else declared - accumulated;
    var tolerance := if declared / 100 > 1000 then declared / 100 else 1000;
    return diff <= tolerance;
  }

  method ValidateManifest(m: Manifest) returns (v: Validation)
    ensures v == Verdict(m.Contents())
  {
    if m.samples == [] { return Invalid("EMPTY_MANIFEST"); }
    var ok := CheckDofCount(m);
    if !ok { return Invalid("DOF_MISMATCH"); }
    if |m.samples| != m.meta.totalSamples { return Invalid("WAYPOINT_COUNT"); }
    ok := CheckManifestEnvelope(m);
    if !ok { return Invalid("INVALID_JOINT"); }
    ok := CheckSegmentsOrdered(m);
    if !ok { return Invalid("SEGMENT_ORDER"); }
    ok := CheckSegmentsCoverAllSamples(m);
    if !ok { return Invalid("SEGMENT_COVERAGE"); }
    ok := CheckTimingIntegrity(m);
    if !ok { return Invalid("TIMING_INVALID"); }
    return Valid;
  }

  // ----- What the coverage scan means -----

  predicate Covers(seg: Segment, k: nat) { seg.start <= k < seg.start + seg.count }

  predicate CoveredBy(segments: seq<Segment>, k: nat)
  {
    exists i | 0 <= i < |segments| :: Covers(segments[i], k)
  }

  lemma {:induction false} ScanCovers(segments: seq<Segment>, next: u32, k: nat)
    requires CoverageScan(segments, next).Some?
    requires next <= k < CoverageScan(segments, next).value
    ensures CoveredBy(segments, k)
  {
    var end := Add32(segments[0].start, segments[0].count);
    var rest := if end > next then end else next;
    if k < rest {
      assert Covers(segments[0], k);
    } else {
      ScanCovers(segments[1..], rest, k);
      var i :| 0 <= i < |segments[1..]| && Covers(segments[1..][i], k);
      assert Covers(segments[i + 1], k);
    }
  }

  predicate StartsSorted(segments: seq<Segment>)
  {
    forall i, j | 0 <= i < j < |segments| :: segments[i].start <= segments[j].start
  }

  predicate EndsWithin(segments: seq<Segment>, total: nat)
  {
    forall i | 0 <= i < |segments| :: segments[i].start + segments[i].count <= total
  }

  /** With sorted starts and ends within range, the scan reaches the last sample
      exactly when nothing is left uncovered. */
  lemma {:induction false} SortedScanComplete(segments: seq<Segment>, next: u32, total: u32)
    requires StartsSorted(segments) && EndsWithin(segments, total) && next <= total
    requires forall k | next <= k < total :: CoveredBy(segments, k)
    ensures CoverageScan(segments, next) == Some(total)
  {
    var nextCovered := CoveredBy(segments, next);
    if segments != [] {
      assert segments[0].start <= next;
      var end := segments[0].start + segments[0].count;
      var rest := if end > next then end else next;
      forall k | rest <= k < total
        ensures CoveredBy(segments[1..], k)
      {
        assert CoveredBy(segments, k);
        var i :| 0 <= i < |segments| && Covers(segments[i], k);
        assert i != 0 && segments[1..][i - 1] == segments[i];
      }
      SortedScanComplete(segments[1..], rest, total);
    }
  }

  /** An accepted manifest leaves no sample uncovered, whatever order its segments come in
      and even where a segment end wraps. */
  lemma CoverageSound(m: Plan)
    requires CoverageAccepted(m)
    ensures forall k | 0 <= k < m.meta.totalSamples :: CoveredBy(m.segments, k)
  {
    forall k | 0 <= k < m.meta.totalSamples
      ensures CoveredBy(m.segments, k)
    {
      ScanCovers(m.segments, 0, k);
    }
  }

  /** For segments with non-decreasing starts that stay in range, acceptance is coverage. */
  lemma CoverageExact(m: Plan)
    requires StartsSorted(m.segments) && EndsWithin(m.segments, m.meta.totalSamples)
    ensures CoverageAccepted(m) <==> forall k | 0 <= k < m.meta.totalSamples :: CoveredBy(m.segments, k)
  {
    if CoverageAccepted(m) { CoverageSound(m); }
    if forall k | 0 <= k < m.meta.totalSamples :: CoveredBy(m.segments, k) {
      SortedScanComplete(m.segments, 0, m.meta.totalSamples);
    }
  }

  /** The end of a segment as the scan computes it, in 32 bits. */
  function End(seg: Segment): u32 { Add32(seg.start, seg.count) }

  /** The segment starts at the first sample or no later than an earlier segment ends. */
  predicate Joined(segments: seq<Segment>, i: nat)
    requires i < |segments|
  {
    segments[i].start == 0 || exists j :: 0 <= j < i && segments[i].start <= End(segments[j])
  }

  /** `next` is 0 or an end among the segments, whichever is greatest. */
  ghost predicate Furthest(segments: seq<Segment>, next: u32)
  {
    && (forall i | 0 <= i < |segments| :: End(segments[i]) <= next)
    && (next == 0 || exists i :: 0 <= i < |segments| && End(segments[i]) == next)
  }

  lemma {:induction false} ScanIff(segments: seq<Segment>, i: nat, next: u32, total: u32)
    requires i <= |segments| && Furthest(segments[..i], next)
    ensures CoverageScan(segments[i..], next) == Some(total)
       <==> (forall k: nat | i <= k < |segments| :: Joined(segments, k)) && Furthest(segments, total)
    decreases |segments| - i
  {
    if i == |segments| {
      assert segments[..i] == segments;
    } else {
      var seg := segments[i];
      var rest := if End(seg) > next then End(seg) else next;
      assert segments[..i + 1] == segments[..i] + [seg];
      assert segments[i..][0] == seg && segments[i..][1..] == segments[i + 1..];
      assert forall k | 0 <= k < i :: segments[..i][k] == segments[k];
      assert seg.start <= next <==> Joined(segments, i);
      assert Furthest(segments[..i + 1], rest);
      ScanIff(segments, i + 1, rest, total);
    }
  }

  /** Exactly the segment lists accepted, in any order and with ends that wrap: every segment starts at the
      first sample or no later than an earlier end, and the greatest end is the number of samples. */
  lemma CoverageIff(m: Plan)
    ensures CoverageAccepted(m)
       <==> (forall i: nat | i < |m.segments| :: Joined(m.segments, i)) && Furthest(m.segments, m.meta.totalSamples)
  {
    ScanIff(m.segments, 0, 0, m.meta.totalSamples);
    assert m.segments[0..] == m.segments;
  }

  /** Out-of-order starts are refused although they cover everything: order is part of acceptance. */
  lemma UnsortedCoverageRefused()
    ensures exists m: Plan ::
              && !CoverageAccepted(m)
              && forall k | 0 <= k < m.meta.totalSamples :: CoveredBy(m.segments, k)
  {
    var late, early := Segment(0, MoveJ, 1, 1), Segment(1, MoveJ, 0, 1);
    var m := Plan(Metadata(1, 2, 1, 1), [late, early], []);
    assert Covers(m.segments[0], 1) && Covers(m.segments[1], 0);
    assert !CoverageAccepted(m);
    assert forall k | 0 <= k < m.meta.totalSamples :: CoveredBy(m.segments, k);
  }
}
