/** The uploaded trajectory: firmware/esp32/src/protocol.h. */
module Manifests {
  import opened Prelude
  import opened Words

  datatype Instruction = MoveJ | MoveL | UnknownInstruction

  datatype Segment = Segment(index: u8, instruction: Instruction, start: u32, count: u32)

  datatype Waypoint = Waypoint(joints: seq<real>, dt: u32)

  datatype Metadata = Metadata(dof: u8, totalSamples: u32, durationUs: nat, repeatCount: nat)

  const NO_METADATA := Metadata(0, 0, 0, 1)

  /** A snapshot of a manifest. */
  datatype Plan = Plan(meta: Metadata, segments: seq<Segment>, samples: seq<Waypoint>)

  const EMPTY_PLAN := Plan(NO_METADATA, [], [])

  /** The manifest object that the protocol fills in and the executor reads through a pointer. */
  class Manifest {
    var meta: Metadata
    var segments: seq<Segment>
    var samples: seq<Waypoint>

    constructor ()
      ensures Contents() == EMPTY_PLAN
    {
      meta, segments, samples := NO_METADATA, [], [];
    }

    function Contents(): Plan
      reads this
    {
      Plan(meta, segments, samples)
    }
  }

  // ----- Durations -----

  /** Time from the first waypoint to waypoint `k`: the sum of dt over samples 1..k.
      The dt of sample 0 does not count. */
  function Offset(ws: seq<Waypoint>, k: nat): nat
    requires k < |ws|
  {
    if k == 0 then 0 else Offset(ws, k - 1) + ws[k].dt
  }

  /** The duration of one pass. */
  function PassLength(ws: seq<Waypoint>): nat
  {
    if ws == [] then 0 else Offset(ws, |ws| - 1)
  }

  lemma {:induction false} OffsetMonotone(ws: seq<Waypoint>, i: nat, j: nat)
    requires i <= j < |ws|
    ensures Offset(ws, i) <= Offset(ws, j)
  {
    if i < j { OffsetMonotone(ws, i, j - 1); }
  }
}
