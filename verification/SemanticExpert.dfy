/** One-pass advice on a semantic program: backend/crates/thalos-intelligence/src/semantic.rs. */
module SemanticExpert {
  import opened Prelude

  type Name = string

  datatype Operation =
    | Pick(origin: Name, item: Name)
    | Place(origin: Name, item: Name)
    | MoveTo(origin: Name, destination: Name)
    | Wait(origin: Name, duration: nat)
    | Home(origin: Name)

  /** The eight observations, with the operation each is anchored at and its attributes. */
  datatype Observation =
    | PickWithoutPlace(origin: Name, item: Name)
    | HomeBeforePlace(origin: Name, item: Name)
    | PickWhileHolding(origin: Name, item: Name, held: Name)
    | RedundantMoveTo(origin: Name, destination: Name)
    | RePickAfterPlace(origin: Name, item: Name)
    | ZeroDurationWait(origin: Name)
    | MissingFinalHome(origin: Name)
    | ZigzagMoveTo(origin: Name, destination: Name)

  type Operations = seq<Operation>

  // ----- Loads -----

  /** An object that was picked, and by which operation. */
  datatype Load = Load(item: Name, origin: Name)

  predicate PlacesAt(ops: Operations, j: nat, item: Name)
  {
    j < |ops| && ops[j].Place? && ops[j].item == item
  }

  /** The object picked at `k` is not placed before `i`. */
  predicate Unplaced(ops: Operations, k: nat, i: nat)
  {
    k < i <= |ops| && ops[k].Pick? && forall j | k < j < i :: !PlacesAt(ops, j, ops[k].item)
  }

  function Without(ops: Operations, picks: seq<nat>, item: Name): (others: seq<nat>)
  {
    if picks == [] then []
    else
      var last := picks[|picks| - 1];
      Without(ops, picks[..|picks| - 1], item) + if LoadAt(ops, last).item != item then [last] else []
  }

  function LoadAt(ops: Operations, k: nat): Load
  {
    if k < |ops| && ops[k].Pick? then Load(ops[k].item, ops[k].origin) else Load("", "")
  }

  /** The picks before `i` whose object is not placed before `i`, in order. */
  function Pending(ops: Operations, i: nat): (picks: seq<nat>)
    requires i <= |ops|
  {
    if i == 0 then []
    else
      var before := Pending(ops, i - 1);
      match ops[i - 1]
      case Pick(_, _) => before + [i - 1]
      case Place(_, item) => Without(ops, before, item)
      case _ => before
  }

  lemma {:induction false} InWithout(ops: Operations, picks: seq<nat>, item: Name, k: nat)
    ensures k in Without(ops, picks, item) <==> k in picks && LoadAt(ops, k).item != item
  {
    if picks != [] {
      InWithout(ops, picks[..|picks| - 1], item, k);
      assert picks == picks[..|picks| - 1] + [picks[|picks| - 1]];
    }
  }

  lemma StillUnplaced(ops: Operations, k: nat, i: nat)
    requires k < i < |ops|
    ensures Unplaced(ops, k, i + 1) <==> Unplaced(ops, k, i) && !PlacesAt(ops, i, ops[k].item)
  {
  }

  lemma {:induction false} InPending(ops: Operations, i: nat, k: nat)
    requires i <= |ops|
    ensures k in Pending(ops, i) <==> Unplaced(ops, k, i)
  {
    if i > 0 {
      InPending(ops, i - 1, k);
      var before, op := Pending(ops, i - 1), ops[i - 1];
      if k < i - 1 { StillUnplaced(ops, k, i - 1); }
      if op.Place? { InWithout(ops, before, op.item, k); }
    }
  }

  predicate Rising(ks: seq<nat>)
  {
    forall a, b | 0 <= a < b < |ks| :: ks[a] < ks[b]
  }

  lemma {:induction false} WithoutRises(ops: Operations, picks: seq<nat>, item: Name)
    requires Rising(picks)
    ensures Rising(Without(ops, picks, item))
  {
    if picks != [] {
      var front := picks[..|picks| - 1];
      WithoutRises(ops, front, item);
      var others := Without(ops, front, item);
      forall a | 0 <= a < |others|
        ensures others[a] in front
      {
        InWithout(ops, front, item, others[a]);
      }
    }
  }

  lemma {:induction false} PendingRises(ops: Operations, i: nat)
    requires i <= |ops|
    ensures Rising(Pending(ops, i))
  {
    if i > 0 {
      PendingRises(ops, i - 1);
      var before := Pending(ops, i - 1);
      forall k | k in before
        ensures k < i - 1
      {
        InPending(ops, i - 1, k);
      }
      match ops[i - 1]
      case Pick(_, _) => RisesOn(before, i - 1);
      case Place(_, item) => WithoutRises(ops, before, item);
      case _ =>
    }
  }

  lemma RisesOn(ks: seq<nat>, k: nat)
    requires Rising(ks) && forall other | other in ks :: other < k
    ensures Rising(ks + [k])
  {
    assert forall a | 0 <= a < |ks| :: ks[a] in ks;
  }

  /** `k` is the last pick before `i` that is still unplaced. */
  predicate IsHeld(ops: Operations, k: nat, i: nat)
  {
    Unplaced(ops, k, i) && forall j | k < j < i :: !Unplaced(ops, j, i)
  }

  function LastOf(picks: seq<nat>): Option<nat> { if picks == [] then None else Some(picks[|picks| - 1]) }

  lemma LastHeldIs(ops: Operations, i: nat, k: nat)
    requires i <= |ops|
    ensures LastOf(Pending(ops, i)) == Some(k) <==> IsHeld(ops, k, i)
  {
    PendingRises(ops, i);
    var picks := Pending(ops, i);
    InPending(ops, i, k);
    if k in picks {
      var a :| 0 <= a < |picks| && picks[a] == k;
      InPending(ops, i, picks[|picks| - 1]);
      if a == |picks| - 1 {
        forall j | k < j < i
          ensures !Unplaced(ops, j, i)
        {
          InPending(ops, i, j);
        }
      }
    }
  }

  // ----- Moves -----

  /** The last move before `i`. */
  function LastMove(ops: Operations, i: nat): (m: Option<nat>)
    requires i <= |ops|
    ensures m.Some? ==> m.value < i
  {
    if i == 0 then None else if ops[i - 1].MoveTo? then Some(i - 1) else LastMove(ops, i - 1)
  }

  function MoveBefore(ops: Operations, m: Option<nat>): (m': Option<nat>)
    requires m.Some? ==> m.value <= |ops|
    ensures m'.Some? ==> m'.value < |ops|
  {
    if m.Some? then LastMove(ops, m.value) else None
  }

  function DestinationOf(ops: Operations, m: Option<nat>): Option<Name>
  {
    if m.Some? && m.value < |ops| && ops[m.value].MoveTo? then Some(ops[m.value].destination) else None
  }

  predicate HandlesAt(ops: Operations, j: nat) { j < |ops| && (ops[j].Pick? || ops[j].Place?) }

  /** Whether an object is picked or placed from `lo` up to `hi`. */
  predicate Handles(ops: Operations, lo: nat, hi: nat)
  {
    exists j :: lo <= j < hi && HandlesAt(ops, j)
  }

  function Since(m: Option<nat>): nat { if m.Some? then m.value + 1 else 0 }

  /** `i` is the next move after the move at `m`. */
  predicate NextMove(ops: Operations, m: nat, i: nat)
  {
    m < i < |ops| && ops[m].MoveTo? && ops[i].MoveTo? && forall j | m < j < i :: !ops[j].MoveTo?
  }

  lemma {:induction false} LastMoveIs(ops: Operations, i: nat)
    requires i <= |ops|
    ensures var m := LastMove(ops, i);
            && (m.Some? ==> ops[m.value].MoveTo? && forall j | m.value < j < i :: !ops[j].MoveTo?)
            && (m.None? ==> forall j | 0 <= j < i :: !ops[j].MoveTo?)
  {
    if i > 0 && !ops[i - 1].MoveTo? { LastMoveIs(ops, i - 1); }
  }

  lemma NextMoveIs(ops: Operations, m: nat, i: nat)
    requires i < |ops| && ops[i].MoveTo?
    ensures NextMove(ops, m, i) <==> LastMove(ops, i) == Some(m)
  {
    LastMoveIs(ops, i);
  }

  // ----- The scan, by value -----

  /** The variables of the scan. */
  datatype Scan = Scan(
    pending: seq<Load>, held: seq<Name>, prevDest: Option<Name>, prev2Dest: Option<Name>,
    handled: bool, lastPlace: Option<Load>)

  function Loads(ops: Operations, picks: seq<nat>): (loads: seq<Load>)
    ensures |loads| == |picks|
  {
    if picks == [] then [] else Loads(ops, picks[..|picks| - 1]) + [LoadAt(ops, picks[|picks| - 1])]
  }

  function Items(ops: Operations, picks: seq<nat>): (items: seq<Name>)
    ensures |items| == |picks|
  {
    if picks == [] then [] else Items(ops, picks[..|picks| - 1]) + [LoadAt(ops, picks[|picks| - 1]).item]
  }

  /** What the variables mean before operation `i`. */
  function Before(ops: Operations, i: nat): Scan
    requires i <= |ops|
  {
    var m := LastMove(ops, i);
    Scan(
      Loads(ops, Pending(ops, i)), Items(ops, Pending(ops, i)),
      DestinationOf(ops, m), DestinationOf(ops, MoveBefore(ops, m)),
      Handles(ops, Since(m), i),
      if i > 0 && ops[i - 1].Place? then Some(Load(ops[i - 1].item, ops[i - 1].origin)) else None)
  }

  /** What the scan observes at an operation. */
  function Observed(op: Operation, s: Scan): seq<Observation>
  {
    match op
    case Pick(origin, item) =>
      (if s.lastPlace.Some? && s.lastPlace.value.item == item then [RePickAfterPlace(origin, item)] else [])
      + (if s.held != [] then [PickWhileHolding(origin, item, s.held[|s.held| - 1])] else [])
    case Place(_, _) => []
    case MoveTo(origin, destination) =>
      if s.prevDest == Some(destination) && !s.handled then [RedundantMoveTo(origin, destination)]
      else if s.prev2Dest == Some(destination) && !s.handled then [ZigzagMoveTo(origin, destination)]
      else []
    case Wait(origin, duration) => if duration == 0 then [ZeroDurationWait(origin)] else []
    case Home(origin) => if s.held != [] then [HomeBeforePlace(origin, s.held[|s.held| - 1])] else []
  }

  function RetainItems(held: seq<Name>, item: Name): seq<Name>
  {
    if held == [] then []
    else RetainItems(held[..|held| - 1], item) + if held[|held| - 1] != item then [held[|held| - 1]] else []
  }

  function RetainLoads(pending: seq<Load>, item: Name): seq<Load>
  {
    if pending == [] then []
    else RetainLoads(pending[..|pending| - 1], item) + if pending[|pending| - 1].item != item then [pending[|pending| - 1]] else []
  }

  /** The variables after an operation. */
  function Next(op: Operation, s: Scan): Scan
  {
    match op
    case Pick(origin, item) =>
      s.(pending := s.pending + [Load(item, origin)], held := s.held + [item], lastPlace := None, handled := true)
    case Place(origin, item) =>
      s.(pending := RetainLoads(s.pending, item), held := RetainItems(s.held, item),
         lastPlace := Some(Load(item, origin)), handled := true)
    case MoveTo(_, destination) =>
      s.(prev2Dest := s.prevDest, prevDest := Some(destination), lastPlace := None, handled := false)
    case Wait(_, _) => s.(lastPlace := None)
    case Home(_) => s.(lastPlace := None)
  }

  lemma LoadsGrow(ops: Operations, picks: seq<nat>, k: nat)
    ensures Items(ops, picks + [k]) == Items(ops, picks) + [LoadAt(ops, k).item]
    ensures Loads(ops, picks + [k]) == Loads(ops, picks) + [LoadAt(ops, k)]
  {
  }

  lemma RetainOne(held: seq<Name>, pending: seq<Load>, x: Load, item: Name)
    ensures RetainItems(held + [x.item], item) == RetainItems(held, item) + if x.item != item then [x.item] else []
    ensures RetainLoads(pending + [x], item) == RetainLoads(pending, item) + if x.item != item then [x] else []
  {
  }

  lemma {:induction false} RetainIsWithout(ops: Operations, picks: seq<nat>, item: Name)
    ensures RetainItems(Items(ops, picks), item) == Items(ops, Without(ops, picks, item))
    ensures RetainLoads(Loads(ops, picks), item) == Loads(ops, Without(ops, picks, item))
  {
    if picks != [] {
      var n := |picks| - 1;
      var front, last := picks[..n], LoadAt(ops, picks[n]);
      RetainIsWithout(ops, front, item);
      RetainOne(Items(ops, front), Loads(ops, front), last, item);
      LoadsGrow(ops, Without(ops, front, item), picks[n]);
      assert Without(ops, front, item) + [] == Without(ops, front, item);
    }
  }

  lemma HandlesNext(ops: Operations, lo: nat, i: nat)
    requires lo <= i < |ops|
    ensures Handles(ops, lo, i + 1) <==> Handles(ops, lo, i) || HandlesAt(ops, i)
  {
  }

  /** One step of the scan keeps what its variables mean. */
  lemma ScanStep(ops: Operations, i: nat)
    requires i < |ops|
    ensures Before(ops, i + 1) == Next(ops[i], Before(ops, i))
  {
    var m, picks := LastMove(ops, i), Pending(ops, i);
    HandlesNext(ops, Since(m), i);
    match ops[i]
    case Pick(_, _) => LoadsGrow(ops, picks, i);
    case Place(_, item) => RetainIsWithout(ops, picks, item);
    case MoveTo(_, _) =>
      assert LastMove(ops, i + 1) == Some(i);
      assert !Handles(ops, i + 1, i + 1);
    case _ =>
  }

  // ----- The advice -----

  function At(ops: Operations, i: nat): seq<Observation>
    requires i < |ops|
  {
    Observed(ops[i], Before(ops, i))
  }

  function Concat(parts: seq<seq<Observation>>): seq<Observation>
  {
    if parts == [] then [] else Concat(parts[..|parts| - 1]) + parts[|parts| - 1]
  }

  lemma {:induction false} InConcat(parts: seq<seq<Observation>>, o: Observation)
    ensures o in Concat(parts) <==> exists k :: 0 <= k < |parts| && o in parts[k]
  {
    if parts != [] { InConcat(parts[..|parts| - 1], o); }
  }

  function Parts(ops: Operations, i: nat): (parts: seq<seq<Observation>>)
    requires i <= |ops|
    ensures |parts| == i && forall k | 0 <= k < i :: parts[k] == At(ops, k)
  {
    if i == 0 then [] else Parts(ops, i - 1) + [At(ops, i - 1)]
  }

  function UpTo(ops: Operations, i: nat): seq<Observation>
    requires i <= |ops|
  {
    Concat(Parts(ops, i))
  }

  lemma UpToNext(ops: Operations, i: nat)
    requires i < |ops|
    ensures UpTo(ops, i + 1) == UpTo(ops, i) + At(ops, i)
  {
  }

  function Unreleased(loads: seq<Load>): seq<Observation>
  {
    if loads == [] then []
    else Unreleased(loads[..|loads| - 1]) + [PickWithoutPlace(loads[|loads| - 1].origin, loads[|loads| - 1].item)]
  }

  function AtEnd(ops: Operations): seq<Observation>
  {
    if ops != [] && !ops[|ops| - 1].Home? then [MissingFinalHome(ops[|ops| - 1].origin)] else []
  }

  function Advice(ops: Operations): seq<Observation>
  {
    UpTo(ops, |ops|) + Unreleased(Before(ops, |ops|).pending) + AtEnd(ops)
  }

  /** What an operation adds to the observations, and the variables after it. */
  method Step(op: Operation, before: Scan, made: seq<Observation>) returns (s: Scan, observations: seq<Observation>)
    ensures s == Next(op, before) && observations == made + Observed(op, before)
  {
    s, observations := before, made;
    match op
    case Pick(origin, item) =>
      if s.lastPlace.Some? && s.lastPlace.value.item == item { observations := observations + [RePickAfterPlace(origin, item)]; }
      if s.held != [] { observations := observations + [PickWhileHolding(origin, item, s.held[|s.held| - 1])]; }
      s := s.(pending := s.pending + [Load(item, origin)], held := s.held + [item]);
      s := s.(lastPlace := None, handled := true);
    case Place(origin, item) =>
      s := s.(held := RetainItems(s.held, item), pending := RetainLoads(s.pending, item));
      s := s.(lastPlace := Some(Load(item, origin)), handled := true);
    case MoveTo(origin, destination) =>
      if s.prevDest == Some(destination) && !s.handled {
        observations := observations + [RedundantMoveTo(origin, destination)];
      } else if s.prev2Dest == Some(destination) && !s.handled {
        observations := observations + [ZigzagMoveTo(origin, destination)];
      }
      s := s.(prev2Dest := s.prevDest, prevDest := Some(destination));
      s := s.(lastPlace := None, handled := false);
    case Wait(origin, duration) =>
      if duration == 0 { observations := observations + [ZeroDurationWait(origin)]; }
      s := s.(lastPlace := None);
    case Home(origin) =>
      if s.held != [] { observations := observations + [HomeBeforePlace(origin, s.held[|s.held| - 1])]; }
      s := s.(lastPlace := None);
  }

  method ReportPending(pending: seq<Load>) returns (observations: seq<Observation>)
    ensures observations == Unreleased(pending)
  {
    observations := [];
    for k := 0 to |pending|
      invariant observations == Unreleased(pending[..k])
    {
      assert pending[..k + 1][..k] == pending[..k];
      observations := observations + [PickWithoutPlace(pending[k].origin, pending[k].item)];
    }
    assert pending[..|pending|] == pending;
  }

  method Analyze(ops: Operations) returns (observations: seq<Observation>)
    ensures observations == Advice(ops)
  {
    observations := [];
    var s := Scan([], [], None, None, false, None);
    for i := 0 to |ops|
      invariant observations == UpTo(ops, i)
      invariant s == Before(ops, i)
    {
      ScanStep(ops, i);
      UpToNext(ops, i);
      s, observations := Step(ops[i], s, observations);
    }
    var unreleased := ReportPending(s.pending);
    observations := observations + unreleased;
    if ops != [] {
      var last := ops[|ops| - 1];
      if !last.Home? { observations := observations + [MissingFinalHome(last.origin)]; }
    }
  }

  // ----- What the advice means -----

  /** The object of the last pick before `i` that is still unplaced. */
  ghost predicate Holding(ops: Operations, i: nat, item: Name)
  {
    exists k: nat :: IsHeld(ops, k, i) && ops[k].item == item
  }

  /** When an observation is due at operation `i`, read off the operations before it. */
  ghost predicate DueAt(ops: Operations, i: nat, o: Observation)
    requires i < |ops|
  {
    match o
    case HomeBeforePlace(origin, item) =>
      ops[i] == Home(origin) && Holding(ops, i, item)
    case PickWhileHolding(origin, item, held) =>
      ops[i] == Pick(origin, item) && Holding(ops, i, held)
    case RedundantMoveTo(origin, destination) =>
      && ops[i] == MoveTo(origin, destination)
      && exists m: nat :: NextMove(ops, m, i) && ops[m].destination == destination && !Handles(ops, m + 1, i)
    case RePickAfterPlace(origin, item) => ops[i] == Pick(origin, item) && i > 0 && PlacesAt(ops, i - 1, item)
    case ZeroDurationWait(origin) => ops[i] == Wait(origin, 0)
    case ZigzagMoveTo(origin, destination) =>
      && ops[i] == MoveTo(origin, destination)
      && exists l: nat, m: nat :: NextMove(ops, l, m) && NextMove(ops, m, i)
           && ops[l].destination == destination && ops[m].destination != destination && !Handles(ops, m + 1, i)
    case _ => false
  }

  /** When an observation is due: an object is never placed after its pick, the program does not end in
      Home, or it is due at some operation. */
  ghost predicate Due(ops: Operations, o: Observation)
  {
    match o
    case PickWithoutPlace(origin, item) => exists k: nat :: Unplaced(ops, k, |ops|) && ops[k] == Pick(origin, item)
    case MissingFinalHome(origin) => ops != [] && !ops[|ops| - 1].Home? && ops[|ops| - 1].origin == origin
    case _ => DueBefore(ops, |ops|, o)
  }

  ghost predicate DueBefore(ops: Operations, k: nat, o: Observation)
    requires k <= |ops|
  {
    exists i :: 0 <= i < k && DueAt(ops, i, o)
  }

  lemma HeldBefore(ops: Operations, i: nat)
    requires i <= |ops|
    ensures var held := Before(ops, i).held;
            && (held == [] <==> LastOf(Pending(ops, i)).None?)
            && (held != [] ==> held[|held| - 1] == LoadAt(ops, LastOf(Pending(ops, i)).value).item)
  {
  }

  lemma HeldAt(ops: Operations, i: nat, o: Observation)
    requires i < |ops| && (o.HomeBeforePlace? || o.PickWhileHolding?)
    ensures o in At(ops, i) <==> DueAt(ops, i, o)
  {
    HoldingIs(ops, i, if o.HomeBeforePlace? then o.item else o.held);
  }

  lemma HoldingIs(ops: Operations, i: nat, item: Name)
    requires i <= |ops|
    ensures var held := Before(ops, i).held;
            Holding(ops, i, item) <==> held != [] && held[|held| - 1] == item
  {
    HeldBefore(ops, i);
    var last := LastOf(Pending(ops, i));
    if last.Some? { LastHeldIs(ops, i, last.value); }
    if Holding(ops, i, item) {
      var k: nat :| IsHeld(ops, k, i) && ops[k].item == item;
      LastHeldIs(ops, i, k);
    }
  }

  lemma SimpleAt(ops: Operations, i: nat, o: Observation)
    requires i < |ops| && !o.HomeBeforePlace? && !o.PickWhileHolding? && !o.RedundantMoveTo? && !o.ZigzagMoveTo?
    ensures o in At(ops, i) <==> DueAt(ops, i, o)
  {
  }

  lemma MovedAt(ops: Operations, i: nat, o: Observation)
    requires i < |ops| && (o.RedundantMoveTo? || o.ZigzagMoveTo?)
    ensures o in At(ops, i) <==> DueAt(ops, i, o)
  {
    if ops[i].MoveTo? {
      forall m: nat
        ensures NextMove(ops, m, i) <==> LastMove(ops, i) == Some(m)
      {
        NextMoveIs(ops, m, i);
      }
      LastMoveIs(ops, i);
      var m := LastMove(ops, i);
      if m.Some? {
        LastMoveIs(ops, m.value);
        forall l: nat
          ensures NextMove(ops, l, m.value) <==> LastMove(ops, m.value) == Some(l)
        {
          NextMoveIs(ops, l, m.value);
        }
      }
    }
  }

  lemma DueIsMadeAt(ops: Operations, i: nat, o: Observation)
    requires i < |ops|
    ensures o in At(ops, i) <==> DueAt(ops, i, o)
  {
    match o
    case RedundantMoveTo(_, _) => MovedAt(ops, i, o);
    case ZigzagMoveTo(_, _) => MovedAt(ops, i, o);
    case HomeBeforePlace(_, _) => HeldAt(ops, i, o);
    case PickWhileHolding(_, _, _) => HeldAt(ops, i, o);
    case _ => SimpleAt(ops, i, o);
  }

  function Reported(load: Load): Observation { PickWithoutPlace(load.origin, load.item) }

  lemma UnreleasedGrows(loads: seq<Load>, load: Load)
    ensures Unreleased(loads + [load]) == Unreleased(loads) + [Reported(load)]
  {
    assert (loads + [load])[..|loads|] == loads;
  }

  /** One of the picks leaves the observation to be made. */
  predicate Leaves(ops: Operations, picks: seq<nat>, o: Observation)
  {
    exists k :: k in picks && o == Reported(LoadAt(ops, k))
  }

  lemma LeavesMore(ops: Operations, picks: seq<nat>, k: nat, o: Observation)
    ensures Leaves(ops, picks + [k], o) <==> Leaves(ops, picks, o) || o == Reported(LoadAt(ops, k))
  {
    assert k in picks + [k];
  }

  lemma {:induction false} InUnreleased(ops: Operations, picks: seq<nat>, o: Observation)
    ensures o in Unreleased(Loads(ops, picks)) <==> Leaves(ops, picks, o)
  {
    if picks != [] {
      var front, last := picks[..|picks| - 1], picks[|picks| - 1];
      InUnreleased(ops, front, o);
      UnreleasedGrows(Loads(ops, front), LoadAt(ops, last));
      LeavesMore(ops, front, last, o);
      assert picks == front + [last];
    }
  }

  lemma UnreleasedIff(ops: Operations, o: Observation)
    ensures o in Unreleased(Before(ops, |ops|).pending) <==> o.PickWithoutPlace? && Due(ops, o)
  {
    InUnreleased(ops, Pending(ops, |ops|), o);
    forall k: nat
      ensures k in Pending(ops, |ops|) <==> Unplaced(ops, k, |ops|)
    {
      InPending(ops, |ops|, k);
    }
  }

  lemma AtEndIff(ops: Operations, o: Observation)
    ensures o in AtEnd(ops) <==> o.MissingFinalHome? && Due(ops, o)
  {
  }

  lemma InUpTo(ops: Operations, k: nat, o: Observation)
    requires k <= |ops|
    ensures o in UpTo(ops, k) <==> DueBefore(ops, k, o)
  {
    var parts := Parts(ops, k);
    InConcat(parts, o);
    if DueBefore(ops, k, o) {
      var i :| 0 <= i < k && DueAt(ops, i, o);
      DueIsMadeAt(ops, i, o);
      assert o in parts[i];
    }
    if i :| 0 <= i < |parts| && o in parts[i] {
      DueIsMadeAt(ops, i, o);
    }
  }

  /** The advice holds an observation just when it is due. */
  lemma AdviceIff(ops: Operations, o: Observation)
    ensures o in Advice(ops) <==> Due(ops, o)
  {
    InUpTo(ops, |ops|, o);
    UnreleasedIff(ops, o);
    AtEndIff(ops, o);
    assert o.PickWithoutPlace? || o.MissingFinalHome? ==> !DueBefore(ops, |ops|, o);
  }

  lemma {:induction false} ConcatPrefix(parts: seq<seq<Observation>>, k: nat)
    requires k <= |parts|
    ensures Concat(parts[..k]) <= Concat(parts)
  {
    if k < |parts| {
      ConcatPrefix(parts[..|parts| - 1], k);
      assert parts[..|parts| - 1][..k] == parts[..k];
    } else {
      assert parts[..k] == parts;
    }
  }

  lemma UpToGrows(ops: Operations, k: nat)
    requires k <= |ops|
    ensures UpTo(ops, k) <= UpTo(ops, |ops|)
  {
    var parts := Parts(ops, |ops|);
    assert parts[..k] == Parts(ops, k);
    ConcatPrefix(parts, k);
  }

  /** The advice comes in the order of the program: what is due before operation `k` makes a prefix of it, for every `k`,
      and only after all of that come the picks never placed and the missing home. */
  lemma AdviceInOrder(ops: Operations, k: nat, o: Observation)
    requires k <= |ops|
    ensures UpTo(ops, k) <= Advice(ops)
    ensures o in UpTo(ops, k) <==> DueBefore(ops, k, o)
  {
    InUpTo(ops, k, o);
    UpToGrows(ops, k);
  }
}
