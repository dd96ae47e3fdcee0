/** Edits of motion programs and their inverses: backend/crates/thalos-planning/src/program_edit.rs. */
module ProgramEdits {
  import opened Prelude

  datatype Frame = World | Id(id: nat)

  datatype Pose = Pose(reference: Frame, target: Frame, translation: seq<real>, rotation: seq<real>)

  datatype Segment =
    | MoveJ(origin: string, target: seq<real>, maxVelocity: Option<real>, maxAcceleration: Option<real>)
    | MoveL(origin: string, frame: Frame, targetPose: Pose, maxVelocity: Option<real>)
    | MoveLPosition(origin: string, frame: Frame, targetPosition: (real, real, real), maxVelocity: Option<real>)

  type Program = seq<Segment>

  datatype EditError =
    | IndexOutOfBounds(index: nat, len: nat)
    | InvalidRange(message: string)
    | WrongSegmentKind(index: nat, expected: string, actual: string)

  datatype Edit =
    | ReplaceSegment(index: nat, replacement: seq<Segment>, original: Option<seq<Segment>>)
    | InsertSegments(at: nat, segments: seq<Segment>)
    | RemoveSegments(at: nat, count: nat, removed: Option<seq<Segment>>)
    | SplitMove(index: nat, point: seq<real>)
    | MergeMoves(first: nat, second: nat, originals: Option<(Segment, Segment)>)
    | MoveWaypoint(segmentIndex: nat, newTarget: seq<real>, oldTarget: Option<seq<real>>)

  /** One more than the largest index the machine can hold. */
  const USIZE: nat := 0x1_0000_0000_0000_0000

  function CheckedAdd(a: nat, b: nat): Option<nat> { if a + b < USIZE then Some(a + b) else None }

  function OrEmpty<T>(o: Option<seq<T>>): seq<T> { if o.Some? then o.value else [] }

  // ----- One segment -----

  function Split(s: Segment, point: seq<real>): Option<(Segment, Segment)>
  {
    if s.MoveJ? then Some((s.(target := point), s)) else None
  }

  /** The first's origin and limits, the second's target. */
  function Merge(a: Segment, b: Segment): Option<Segment>
  {
    if a.MoveJ? && b.MoveJ? then Some(a.(target := b.target))
    else if a.MoveL? && b.MoveL? then Some(a.(targetPose := b.targetPose))
    else None
  }

  function Retarget(s: Segment, newTarget: seq<real>): Option<Segment>
  {
    if s.MoveJ? then Some(s.(target := newTarget)) else None
  }

  // ----- Applying -----

  /** Puts `middle` in place of the segments from `lo` up to `hi`. */
  function Splice(p: Program, lo: nat, hi: nat, middle: seq<Segment>): Program
    requires lo <= hi <= |p|
  {
    p[..lo] + middle + p[hi..]
  }

  /** How many segments a replacement replaces: the length of its capture, but at least one. */
  function ReplacedLength(original: Option<seq<Segment>>): nat
  {
    if original.None? || original.value == [] then 1 else |original.value|
  }

  function Apply(e: Edit, p: Program): Result<Program, EditError>
  {
    match e
    case ReplaceSegment(index, replacement, original) =>
      if index >= |p| then Failure(IndexOutOfBounds(index, |p|))
      else (
        match CheckedAdd(index, ReplacedLength(original) - 1)
        case None => Failure(InvalidRange("segment index overflow"))
        case Some(end) =>
          if end >= |p| then Failure(IndexOutOfBounds(end, |p|))
          else Success(Splice(p, index, end + 1, replacement)))
    case InsertSegments(at, segments) =>
      if segments == [] then Failure(InvalidRange("inserting zero segments"))
      else if at > |p| then Failure(IndexOutOfBounds(at, |p|))
      else Success(Splice(p, at, at, segments))
    case RemoveSegments(at, count, _) =>
      if count == 0 then Failure(InvalidRange("removing zero segments"))
      else (
        match CheckedAdd(at, count)
        case None => Failure(InvalidRange("segment count overflow"))
        case Some(end) =>
          if end > |p| then Failure(IndexOutOfBounds(end, |p|))
          else Success(Splice(p, at, end, [])))
    case SplitMove(index, point) =>
      if index >= |p| then Failure(IndexOutOfBounds(index, |p|))
      else if point == [] then Failure(InvalidRange("split point must name at least one joint"))
      else (
        match Split(p[index], point)
        case None => Failure(WrongSegmentKind(index, "MoveJ", "MoveL"))
        case Some(halves) => Success(Splice(p, index, index + 1, [halves.0, halves.1])))
    case MergeMoves(first, second, _) =>
      if second != first + 1 then Failure(InvalidRange("not adjacent"))
      else if second >= |p| then Failure(IndexOutOfBounds(second, |p|))
      else (
        match Merge(p[first], p[second])
        case None => Failure(WrongSegmentKind(first, "two segments of the same kind", "segments of different kinds"))
        case Some(merged) => Success(Splice(p, first, second + 1, [merged])))
    case MoveWaypoint(index, newTarget, _) =>
      if index >= |p| then Failure(IndexOutOfBounds(index, |p|))
      else if newTarget == [] then Failure(InvalidRange("target must name at least one joint"))
      else (
        match Retarget(p[index], newTarget)
        case None => Failure(WrongSegmentKind(index, "MoveJ", "MoveL"))
        case Some(moved) => Success(p[index := moved]))
  }

  function Inverse(e: Edit): Edit
  {
    match e
    case ReplaceSegment(index, replacement, original) => ReplaceSegment(index, OrEmpty(original), Some(replacement))
    case InsertSegments(at, segments) => RemoveSegments(at, |segments|, Some(segments))
    case RemoveSegments(at, _, removed) => InsertSegments(at, OrEmpty(removed))
    case SplitMove(index, _) => MergeMoves(index, index + 1, None)
    case MergeMoves(first, _, originals) =>
      (match originals
       case Some(pair) => ReplaceSegment(first, [pair.0, pair.1], None)
       case None => SplitMove(first, []))
    case MoveWaypoint(index, newTarget, oldTarget) => MoveWaypoint(index, OrEmpty(oldTarget), Some(newTarget))
  }

  // ----- What an edit changes -----

  /** `q` is `p` with the segments from `lo` to `hi` giving way to `middle`, segment by segment. */
  predicate Replaces(p: Program, q: Program, lo: nat, hi: nat, middle: seq<Segment>)
  {
    && lo <= hi <= |p| && |q| == |p| - (hi - lo) + |middle|
    && (forall i | 0 <= i < lo :: q[i] == p[i])
    && (forall i | 0 <= i < |middle| :: q[lo + i] == middle[i])
    && (forall i | hi <= i < |p| :: q[i - hi + lo + |middle|] == p[i])
  }

  lemma SpliceReplaces(p: Program, lo: nat, hi: nat, middle: seq<Segment>)
    requires lo <= hi <= |p|
    ensures Replaces(p, Splice(p, lo, hi, middle), lo, hi, middle)
  {
  }

  lemma UpdateReplaces(p: Program, i: nat, s: Segment)
    requires i < |p|
    ensures p[i := s] == Splice(p, i, i + 1, [s])
  {
  }

  /** The range an edit acts on. */
  function Range(e: Edit): (nat, nat)
  {
    match e
    case ReplaceSegment(index, _, original) => (index, index + ReplacedLength(original))
    case InsertSegments(at, _) => (at, at)
    case RemoveSegments(at, count, _) => (at, at + count)
    case SplitMove(index, _) => (index, index + 1)
    case MergeMoves(first, second, _) => (first, second + 1)
    case MoveWaypoint(index, _, _) => (index, index + 1)
  }

  /** What an edit leaves in that range: a split passes through the point on the way to the old target, a merge
      goes straight to the second target within the first's limits, a moved waypoint changes its target alone. */
  predicate Leaves(e: Edit, p: Program, middle: seq<Segment>)
  {
    match e
    case ReplaceSegment(_, replacement, _) => middle == replacement
    case InsertSegments(_, segments) => middle == segments
    case RemoveSegments(_, _, _) => middle == []
    case SplitMove(i, point) => i < |p| && p[i].MoveJ? && middle == [p[i].(target := point), p[i]]
    case MergeMoves(i, k, _) =>
      && k == i + 1 < |p|
      && ((p[i].MoveJ? && p[k].MoveJ? && middle == [p[i].(target := p[k].target)])
          || (p[i].MoveL? && p[k].MoveL? && middle == [p[i].(targetPose := p[k].targetPose)]))
    case MoveWaypoint(i, newTarget, _) => i < |p| && p[i].MoveJ? && middle == [p[i].(target := newTarget)]
  }

  lemma EditSplices(e: Edit, p: Program, q: Program) returns (middle: seq<Segment>)
    requires Apply(e, p) == Success(q)
    ensures Leaves(e, p, middle)
    ensures Range(e).0 <= Range(e).1 <= |p| && q == Splice(p, Range(e).0, Range(e).1, middle)
  {
    match e
    case ReplaceSegment(_, replacement, _) => middle := replacement;
    case InsertSegments(_, segments) => middle := segments;
    case RemoveSegments(_, _, _) => middle := [];
    case SplitMove(i, point) => middle := [Split(p[i], point).value.0, p[i]];
    case MergeMoves(i, k, _) => middle := [Merge(p[i], p[k]).value];
    case MoveWaypoint(i, newTarget, _) =>
      middle := [Retarget(p[i], newTarget).value];
      UpdateReplaces(p, i, middle[0]);
  }

  /** Whatever the edit, all segments outside its range stay as they are and in order, and the range
      holds what the edit puts there. */
  lemma EditEffect(e: Edit, p: Program, q: Program)
    requires Apply(e, p) == Success(q)
    ensures exists middle :: Leaves(e, p, middle) && Replaces(p, q, Range(e).0, Range(e).1, middle)
  {
    var middle := EditSplices(e, p, q);
    SpliceReplaces(p, Range(e).0, Range(e).1, middle);
  }

  // ----- When an edit applies -----

  /** The range lies in the program, what is inserted, removed, split at or moved to is not empty, and the segments are of
      the kind that the edit is for. */
  predicate Applicable(e: Edit, p: Program)
  {
    match e
    case ReplaceSegment(index, _, original) =>
      index < |p| && (original.Some? ==> index + |original.value| <= |p|)
    case InsertSegments(at, segments) => at <= |p| && segments != []
    case RemoveSegments(at, count, _) => 0 < count && at + count <= |p|
    case SplitMove(index, point) => index < |p| && point != [] && p[index].MoveJ?
    case MergeMoves(first, second, _) =>
      && second == first + 1 < |p|
      && ((p[first].MoveJ? && p[second].MoveJ?) || (p[first].MoveL? && p[second].MoveL?))
    case MoveWaypoint(index, newTarget, _) => index < |p| && newTarget != [] && p[index].MoveJ?
  }

  /** What an error says of the edit. */
  predicate Explains(error: EditError, e: Edit, p: Program)
  {
    match error
    case IndexOutOfBounds(index, len) =>
      && len == |p| && index >= |p|
      && (match e
          case ReplaceSegment(at, _, original) =>
            index == at || (original.Some? && index == at + |original.value| - 1)
          case InsertSegments(at, _) => index == at && index > |p|
          case RemoveSegments(at, count, _) => index == at + count && index > |p|
          case SplitMove(at, _) => index == at
          case MergeMoves(_, second, _) => index == second
          case MoveWaypoint(at, _, _) => index == at)
    case InvalidRange(_) =>
      (match e
       case ReplaceSegment(at, _, original) => original.Some? && at + |original.value| > USIZE
       case InsertSegments(_, segments) => segments == []
       case RemoveSegments(at, count, _) => count == 0 || at + count >= USIZE
       case SplitMove(_, point) => point == []
       case MergeMoves(first, second, _) => second != first + 1
       case MoveWaypoint(_, newTarget, _) => newTarget == [])
    case WrongSegmentKind(index, _, _) =>
      (match e
       case SplitMove(at, _) => index == at < |p| && !p[at].MoveJ?
       case MergeMoves(first, second, _) =>
         && index == first && second == first + 1 < |p|
         && !(p[first].MoveJ? && p[second].MoveJ?) && !(p[first].MoveL? && p[second].MoveL?)
       case MoveWaypoint(at, _, _) => index == at < |p| && !p[at].MoveJ?
       case _ => false)
  }

  /** An edit applies just when it is applicable. */
  lemma AppliesIff(e: Edit, p: Program)
    requires Fits(p)
    ensures Apply(e, p).Success? <==> Applicable(e, p)
  {
    match e
    case ReplaceSegment(_, _, _) => ReplaceAppliesIff(e, p);
    case MergeMoves(_, _, _) => MergeAppliesIff(e, p);
    case _ =>
  }

  lemma ReplaceAppliesIff(e: Edit, p: Program)
    requires Fits(p) && e.ReplaceSegment?
    ensures Apply(e, p).Success? <==> Applicable(e, p)
  {
  }

  lemma MergeAppliesIff(e: Edit, p: Program)
    requires e.MergeMoves?
    ensures Apply(e, p).Success? <==> Applicable(e, p)
  {
  }

  /** And where it does not, the error says why. */
  lemma FailureExplains(e: Edit, p: Program)
    requires Fits(p) && Apply(e, p).Failure?
    ensures Explains(Apply(e, p).error, e, p)
  {
  }

  // ----- When an inverse restores the program -----

  /** A program the machine can hold. */
  predicate Fits(p: Program) { |p| < USIZE }

  /** The capture holds what the edit destroys; a replacement must also leave something to replace,
      and an old target must name a joint. */
  predicate Restorable(e: Edit, p: Program)
  {
    match e
    case ReplaceSegment(index, replacement, original) =>
      replacement != [] && original.Some? && original.value != [] && index + |original.value| <= |p|
      && original.value == p[index..index + |original.value|]
    case InsertSegments(_, _) => true
    case RemoveSegments(at, count, removed) => at + count <= |p| && removed == Some(p[at..at + count])
    case SplitMove(_, _) => true
    case MergeMoves(first, second, originals) => first < |p| && second < |p| && originals == Some((p[first], p[second]))
    case MoveWaypoint(index, _, oldTarget) =>
      index < |p| && p[index].MoveJ? && p[index].target != [] && oldTarget == Some(p[index].target)
  }

  lemma SpliceBack(p: Program, lo: nat, hi: nat, middle: seq<Segment>, other: seq<Segment>)
    requires lo <= hi <= |p|
    ensures Splice(Splice(p, lo, hi, middle), lo, lo + |middle|, other) == Splice(p, lo, hi, other)
  {
  }

  /** A splice leaves the program as it was just when it puts back what is there. */
  lemma SpliceRestores(p: Program, lo: nat, hi: nat, middle: seq<Segment>)
    requires lo <= hi <= |p|
    ensures Splice(p, lo, hi, middle) == p <==> middle == p[lo..hi]
  {
  }

  lemma ReplaceRoundTrip(e: Edit, p: Program, q: Program)
    requires e.ReplaceSegment? && Apply(e, p) == Success(q) && Fits(q)
    ensures Apply(Inverse(e), q) == Success(p) <==> Restorable(e, p)
  {
    var lo, n, put := e.index, ReplacedLength(e.original), OrEmpty(e.original);
    if e.replacement == [] {
      assert |q| == |p| - n;
      if Apply(Inverse(e), q).Success? {
        assert |Apply(Inverse(e), q).value| == |q| - 1 + |put|;
      }
    } else {
      SpliceBack(p, lo, lo + n, e.replacement, put);
      SpliceRestores(p, lo, lo + n, put);
    }
  }

  lemma InsertRoundTrip(e: Edit, p: Program, q: Program)
    requires e.InsertSegments? && Apply(e, p) == Success(q) && Fits(q)
    ensures Apply(Inverse(e), q) == Success(p)
  {
    SpliceBack(p, e.at, e.at, e.segments, []);
    SpliceRestores(p, e.at, e.at, []);
  }

  lemma RemoveRoundTrip(e: Edit, p: Program, q: Program)
    requires e.RemoveSegments? && Apply(e, p) == Success(q)
    ensures Apply(Inverse(e), q) == Success(p) <==> Restorable(e, p)
  {
    SpliceBack(p, e.at, e.at + e.count, [], OrEmpty(e.removed));
    SpliceRestores(p, e.at, e.at + e.count, OrEmpty(e.removed));
  }

  lemma SplitRoundTrip(e: Edit, p: Program, q: Program)
    requires e.SplitMove? && Apply(e, p) == Success(q)
    ensures Apply(Inverse(e), q) == Success(p)
  {
    var (head, tail) := Split(p[e.index], e.point).value;
    assert q[e.index] == head && q[e.index + 1] == tail;
    SpliceBack(p, e.index, e.index + 1, [head, tail], [p[e.index]]);
    SpliceRestores(p, e.index, e.index + 1, [p[e.index]]);
  }

  lemma MergeRoundTrip(e: Edit, p: Program, q: Program)
    requires e.MergeMoves? && Apply(e, p) == Success(q) && Fits(q)
    ensures Apply(Inverse(e), q) == Success(p) <==> Restorable(e, p)
  {
    if e.originals.Some? {
      var pair, merged := e.originals.value, Merge(p[e.first], p[e.second]).value;
      SpliceBack(p, e.first, e.second + 1, [merged], [pair.0, pair.1]);
      SpliceRestores(p, e.first, e.second + 1, [pair.0, pair.1]);
      assert p[e.first..e.second + 1] == [p[e.first], p[e.second]];
    }
  }

  lemma MoveRoundTrip(e: Edit, p: Program, q: Program)
    requires e.MoveWaypoint? && Apply(e, p) == Success(q)
    ensures Apply(Inverse(e), q) == Success(p) <==> Restorable(e, p)
  {
    var i, target := e.segmentIndex, OrEmpty(e.oldTarget);
    assert q[i := q[i].(target := target)] == p[i := p[i].(target := target)];
    assert p[i := p[i].(target := target)][i].target == target;
    assert p[i := p[i]] == p;
  }

  /** An edit's inverse restores the program it was applied to if and only if its capture is right:
      inserting and splitting need none. */
  lemma RoundTripIff(e: Edit, p: Program, q: Program)
    requires Apply(e, p) == Success(q) && Fits(q)
    ensures Apply(Inverse(e), q) == Success(p) <==> Restorable(e, p)
  {
    match e
    case ReplaceSegment(_, _, _) => ReplaceRoundTrip(e, p, q);
    case InsertSegments(_, _) => InsertRoundTrip(e, p, q);
    case RemoveSegments(_, _, _) => RemoveRoundTrip(e, p, q);
    case SplitMove(_, _) => SplitRoundTrip(e, p, q);
    case MergeMoves(_, _, _) => MergeRoundTrip(e, p, q);
    case MoveWaypoint(_, _, _) => MoveRoundTrip(e, p, q);
  }

  /** Without a capture, the inverses of removing, merging and retargeting fail on every program. */
  lemma UncapturedInverseFails(e: Edit, p: Program)
    requires (e.RemoveSegments? && e.removed.None?) || (e.MergeMoves? && e.originals.None?) || (e.MoveWaypoint? && e.oldTarget.None?)
    ensures Apply(Inverse(e), p).Failure?
  {
  }

  /** A replacement by nothing is not undone, whatever it captured: its inverse takes the segment
      that moved up in its place as the one to replace. */
  lemma EmptyReplacementIsLost()
    ensures exists e: Edit, p: Program, q: Program ::
              e.ReplaceSegment? && |p| == 2 && e.original == Some(p[..1]) && Apply(e, p) == Success(q)
              && Apply(Inverse(e), q).Success? && Apply(Inverse(e), q) != Success(p)
  {
    var a, b := MoveJ("a", [1.0], None, None), MoveJ("b", [2.0], None, None);
    var e := ReplaceSegment(0, [], Some([a]));
    assert Splice([a, b], 0, 1, []) == [b] && Splice([b], 0, 1, [a]) == [a];
    assert Apply(e, [a, b]) == Success([b]);
    assert Apply(Inverse(e), [b]) == Success([a]);
    assert [a] != [a, b];
    assert [a, b][..1] == [a];
  }

  // ----- Undo stacks -----

  /** The program after each edit in turn. */
  function ApplyAll(edits: seq<Edit>, p: Program): Result<Program, EditError>
  {
    if edits == [] then Success(p)
    else
      match Apply(edits[0], p)
      case Failure(error) => Failure(error)
      case Success(next) => ApplyAll(edits[1..], next)
  }

  /** The inverses, last edit first. */
  function Undo(edits: seq<Edit>): (undo: seq<Edit>)
    ensures |undo| == |edits|
  {
    if edits == [] then [] else Undo(edits[1..]) + [Inverse(edits[0])]
  }

  /** Each edit is restorable where it is applied. */
  predicate AllRestorable(edits: seq<Edit>, p: Program)
  {
    edits == [] || (
      && Restorable(edits[0], p)
      && Apply(edits[0], p).Success?
      && Fits(Apply(edits[0], p).value)
      && AllRestorable(edits[1..], Apply(edits[0], p).value))
  }

  lemma {:induction false} ApplyAllSplits(first: seq<Edit>, last: Edit, p: Program)
    ensures ApplyAll(first + [last], p)
         == if ApplyAll(first, p).Success? then Apply(last, ApplyAll(first, p).value) else ApplyAll(first, p)
  {
    if first == [] {
      assert ApplyAll([last][1..], p) == Success(p);
      assert first + [last] == [last];
    } else {
      assert (first + [last])[1..] == first[1..] + [last];
      if Apply(first[0], p).Success? { ApplyAllSplits(first[1..], last, Apply(first[0], p).value); }
    }
  }

  /** Undoing every edit, last first, gives back the program. */
  lemma {:induction false} UndoRestores(edits: seq<Edit>, p: Program)
    requires AllRestorable(edits, p)
    ensures ApplyAll(edits, p).Success? && ApplyAll(Undo(edits), ApplyAll(edits, p).value) == Success(p)
  {
    if edits != [] {
      var next := Apply(edits[0], p).value;
      UndoRestores(edits[1..], next);
      ApplyAllSplits(Undo(edits[1..]), Inverse(edits[0]), ApplyAll(edits, p).value);
      RoundTripIff(edits[0], p, next);
    }
  }

  /** Undoing the undo: the inverse of an inverse repeats the edit, except for splits, whose point is
      forgotten, and merges, which become a replacement by nothing. */
  lemma RedoIff(e: Edit, p: Program, q: Program)
    requires Apply(e, p) == Success(q) && Restorable(e, p) && Fits(p) && Fits(q)
    ensures Apply(Inverse(Inverse(e)), p) == Success(q) <==> !e.SplitMove? && !e.MergeMoves?
  {
  }
}
