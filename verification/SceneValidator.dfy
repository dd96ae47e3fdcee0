/** The topology checks of a visual scene: backend/crates/thalos-visual/src/validator.rs. */
module SceneValidator {
  import opened Prelude

  type Id = string

  const WORLD: Id := "world"

  datatype Frame = Frame(id: Id, parent: Option<Id>)

  type Scene = seq<Frame>

  datatype SceneError = MissingWorld | MissingFrame(id: Id) | DuplicateId(id: Id) | BrokenTopology(frame: Id)

  // ----- Ids and parents -----

  predicate HasFrame(scene: Scene, id: Id)
  {
    exists i :: 0 <= i < |scene| && scene[i].id == id
  }

  predicate Repeats(scene: Scene, id: Id)
  {
    exists i, k :: 0 <= i < k < |scene| && scene[i].id == scene[k].id == id
  }

  predicate IsParent(scene: Scene, id: Id)
  {
    exists i :: 0 <= i < |scene| && scene[i].parent == Some(id)
  }

  predicate UniqueIds(scene: Scene)
  {
    forall i, k | 0 <= i < k < |scene| :: scene[i].id != scene[k].id
  }

  predicate ParentsExist(scene: Scene)
  {
    forall i | 0 <= i < |scene| && scene[i].parent.Some? :: HasFrame(scene, scene[i].parent.value)
  }

  method CheckWorldExists(scene: Scene) returns (r: Result<(), SceneError>)
    ensures r.Success? <==> HasFrame(scene, WORLD)
    ensures r.Failure? ==> r.error == MissingWorld
  {
    for i := 0 to |scene|
      invariant forall k | 0 <= k < i :: scene[k].id != WORLD
    {
      if scene[i].id == WORLD { return Success(()); }
    }
    return Failure(MissingWorld);
  }

  method CheckIdsUnique(scene: Scene) returns (r: Result<(), SceneError>)
    ensures r.Success? <==> UniqueIds(scene)
    ensures r.Failure? ==> r.error.DuplicateId? && Repeats(scene, r.error.id)
  {
    var seen: set<Id> := {};
    for i := 0 to |scene|
      invariant seen == set k | 0 <= k < i :: scene[k].id
      invariant forall k, l | 0 <= k < l < i :: scene[k].id != scene[l].id
    {
      if scene[i].id in seen {
        assert Repeats(scene, scene[i].id);
        return Failure(DuplicateId(scene[i].id));
      }
      seen := seen + {scene[i].id};
    }
    return Success(());
  }

  method CheckParentsExist(scene: Scene) returns (r: Result<(), SceneError>)
    ensures r.Success? <==> ParentsExist(scene)
    ensures r.Failure? ==> r.error.MissingFrame? && IsParent(scene, r.error.id) && !HasFrame(scene, r.error.id)
  {
    var ids := set i | 0 <= i < |scene| :: scene[i].id;
    for i := 0 to |scene|
      invariant forall k | 0 <= k < i && scene[k].parent.Some? :: HasFrame(scene, scene[k].parent.value)
    {
      if scene[i].parent.Some? && scene[i].parent.value !in ids {
        return Failure(MissingFrame(scene[i].parent.value));
      }
    }
    return Success(());
  }

  // ----- Parent chains -----

  /** The frame with each id: the last one, should an id repeat. */
  function ById(scene: Scene): map<Id, Frame>
  {
    if scene == [] then map[]
    else
      var n := |scene| - 1;
      ById(scene[..n])[scene[n].id := scene[n]]
  }

  lemma {:induction false} ByIdHolds(scene: Scene)
    ensures forall id :: id in ById(scene) <==> HasFrame(scene, id)
    ensures forall id | id in ById(scene) :: ById(scene)[id] in scene && ById(scene)[id].id == id
  {
    if scene != [] {
      var n := |scene| - 1;
      ByIdHolds(scene[..n]);
      assert scene == scene[..n] + [scene[n]];
      forall id ensures HasFrame(scene, id) <==> HasFrame(scene[..n], id) || scene[n].id == id {
        HasFrameMore(scene[..n], scene[n], id);
      }
    }
  }

  lemma HasFrameMore(scene: Scene, frame: Frame, id: Id)
    ensures HasFrame(scene + [frame], id) <==> HasFrame(scene, id) || frame.id == id
  {
    assert forall i | 0 <= i < |scene| :: (scene + [frame])[i] == scene[i];
    assert (scene + [frame])[|scene|] == frame;
  }

  function ParentOf(scene: Scene, id: Id): Option<Id>
  {
    if id in ById(scene) then ById(scene)[id].parent else None
  }

  ghost predicate Up(scene: Scene, chain: seq<Id>, i: nat)
    requires 0 < i < |chain|
  {
    ParentOf(scene, chain[i - 1]) == Some(chain[i])
  }

  /** Each id is followed by its parent. */
  ghost predicate Climbs(scene: Scene, chain: seq<Id>)
  {
    chain != [] && forall i | 0 < i < |chain| :: Up(scene, chain, i)
  }

  /** A climb to an id without a parent. */
  ghost predicate Tops(scene: Scene, chain: seq<Id>)
  {
    Climbs(scene, chain) && ParentOf(scene, chain[|chain| - 1]) == None
  }

  ghost predicate Ends(scene: Scene, id: Id)
  {
    exists chain :: Tops(scene, chain) && chain[0] == id
  }

  predicate Distinct(ids: seq<Id>)
  {
    forall i, k | 0 <= i < k < |ids| :: ids[i] != ids[k]
  }

  lemma ClimbTail(scene: Scene, chain: seq<Id>, k: nat)
    requires Climbs(scene, chain) && k < |chain|
    ensures Climbs(scene, chain[k..])
  {
    var tail := chain[k..];
    forall i | 0 < i < |tail|
      ensures Up(scene, tail, i)
    {
      assert Up(scene, chain, k + i);
    }
  }

  /** Of two climbs from the same id, one that reaches a top is at least as long. */
  lemma {:induction false} TopsFurther(scene: Scene, top: seq<Id>, chain: seq<Id>)
    requires Tops(scene, top) && Climbs(scene, chain) && top[0] == chain[0]
    ensures |chain| <= |top| && forall i | 0 <= i < |chain| :: top[i] == chain[i]
  {
    if |chain| > 1 {
      assert Up(scene, chain, 1);
      assert |top| > 1;
      assert Up(scene, top, 1);
      ClimbTail(scene, chain, 1);
      ClimbTail(scene, top, 1);
      TopsFurther(scene, top[1..], chain[1..]);
      assert forall i | 0 < i < |chain| :: top[i] == top[1..][i - 1] && chain[i] == chain[1..][i - 1];
    }
  }

  /** A climb to a top never meets an id twice. */
  lemma TopsIsSimple(scene: Scene, top: seq<Id>)
    requires Tops(scene, top)
    ensures Distinct(top)
  {
    forall i, k | 0 <= i < k < |top|
      ensures top[i] != top[k]
    {
      if top[i] == top[k] {
        ClimbTail(scene, top, i);
        ClimbTail(scene, top, k);
        TopsFurther(scene, top[k..], top[i..]);
      }
    }
  }

  /** A climb that meets an id again never ends. */
  lemma RepeatNeverEnds(scene: Scene, chain: seq<Id>, k: nat)
    requires Climbs(scene, chain) && k < |chain| - 1 && chain[k] == chain[|chain| - 1]
    ensures !Ends(scene, chain[0])
  {
    if Ends(scene, chain[0]) {
      var top :| Tops(scene, top) && top[0] == chain[0];
      TopsFurther(scene, top, chain);
      TopsIsSimple(scene, top);
    }
  }

  function Names(scene: Scene): set<Id>
  {
    (set i | 0 <= i < |scene| :: scene[i].id) + (set i | 0 <= i < |scene| && scene[i].parent.Some? :: scene[i].parent.value)
  }

  lemma ParentIsNamed(scene: Scene, id: Id)
    ensures ParentOf(scene, id).Some? ==> ParentOf(scene, id).value in Names(scene)
  {
    ByIdHolds(scene);
  }

  /** Follows parents from one frame until there are none, or an id comes up again. */
  method WalkUp(scene: Scene, byId: map<Id, Frame>, start: Id) returns (ends: bool)
    requires byId == ById(scene) && HasFrame(scene, start)
    ensures ends <==> Ends(scene, start)
  {
    var visited: set<Id> := {};
    var current := Some(start);
    ghost var trail: seq<Id> := [];
    while current.Some?
      invariant visited == (set id | id in trail) <= Names(scene)
      invariant trail == [] ==> current == Some(start)
      invariant trail != [] ==> trail[0] == start && Climbs(scene, trail) && ParentOf(scene, trail[|trail| - 1]) == current
      invariant current.Some? ==> current.value in Names(scene)
      decreases Names(scene) - visited, current.Some?
    {
      var id := current.value;
      ghost var longer := trail + [id];
      ClimbsOn(scene, trail, id);
      if id in visited {
        ghost var k :| 0 <= k < |trail| && trail[k] == id;
        RepeatNeverEnds(scene, longer, k);
        return false;
      }
      visited := visited + {id};
      trail := longer;
      ParentIsNamed(scene, id);
      current := if id in byId then byId[id].parent else None;
    }
    assert Tops(scene, trail);
    return true;
  }

  lemma ClimbsOn(scene: Scene, trail: seq<Id>, id: Id)
    requires trail == [] || (Climbs(scene, trail) && ParentOf(scene, trail[|trail| - 1]) == Some(id))
    ensures Climbs(scene, trail + [id])
  {
    var longer := trail + [id];
    forall i | 0 < i < |longer|
      ensures Up(scene, longer, i)
    {
      assert i < |trail| ==> Up(scene, trail, i);
    }
  }

  method CheckNoCycles(scene: Scene) returns (r: Result<(), SceneError>)
    ensures r.Success? <==> forall i | 0 <= i < |scene| :: Ends(scene, scene[i].id)
    ensures r.Failure? ==> r.error.BrokenTopology? && HasFrame(scene, r.error.frame) && !Ends(scene, r.error.frame)
  {
    var byId := ById(scene);
    for i := 0 to |scene|
      invariant forall k | 0 <= k < i :: Ends(scene, scene[k].id)
    {
      assert HasFrame(scene, scene[i].id);
      var ends := WalkUp(scene, byId, scene[i].id);
      if !ends { return Failure(BrokenTopology(scene[i].id)); }
    }
    return Success(());
  }

  // ----- Reachability -----

  /** Some frame with id `b` has the parent `a`. */
  predicate Child(scene: Scene, a: Id, b: Id)
  {
    exists i :: 0 <= i < |scene| && scene[i].id == b && scene[i].parent == Some(a)
  }

  ghost predicate Down(scene: Scene, path: seq<Id>, i: nat)
    requires 0 < i < |path|
  {
    Child(scene, path[i - 1], path[i])
  }

  ghost predicate Descends(scene: Scene, path: seq<Id>)
  {
    path != [] && path[0] == WORLD && forall i | 0 < i < |path| :: Down(scene, path, i)
  }

  ghost predicate Reached(scene: Scene, id: Id)
  {
    exists path :: Descends(scene, path) && path[|path| - 1] == id
  }

  lemma ReachedChild(scene: Scene, a: Id, b: Id)
    requires Reached(scene, a) && Child(scene, a, b)
    ensures Reached(scene, b)
  {
    var path :| Descends(scene, path) && path[|path| - 1] == a;
    var longer := path + [b];
    forall i | 0 < i < |longer|
      ensures Down(scene, longer, i)
    {
      assert i < |path| ==> Down(scene, path, i);
    }
    assert longer[|longer| - 1] == b;
  }

  /** A set with the world in it and closed under children holds all that is reached. */
  lemma {:induction false} ReachedInClosed(scene: Scene, closed: set<Id>, path: seq<Id>)
    requires WORLD in closed && forall a, b | a in closed && Child(scene, a, b) :: b in closed
    requires Descends(scene, path)
    ensures path[|path| - 1] in closed
  {
    if |path| > 1 {
      var front := path[..|path| - 1];
      forall i | 0 < i < |front|
        ensures Down(scene, front, i)
      {
        assert Down(scene, path, i);
      }
      ReachedInClosed(scene, closed, front);
      assert Down(scene, path, |path| - 1);
    }
  }

  function Kids(children: map<Id, seq<Id>>, id: Id): seq<Id> { if id in children then children[id] else [] }

  method ChildLists(scene: Scene) returns (children: map<Id, seq<Id>>)
    ensures forall a, b :: b in Kids(children, a) <==> Child(scene, a, b)
  {
    children := map[];
    for i := 0 to |scene|
      invariant forall a, b :: b in Kids(children, a) <==> Child(scene[..i], a, b)
    {
      var frame := scene[i];
      ghost var before := children;
      if frame.parent.Some? {
        children := children[frame.parent.value := Kids(children, frame.parent.value) + [frame.id]];
      }
      forall a, b
        ensures b in Kids(children, a) <==> Child(scene[..i + 1], a, b)
      {
        ChildOfLonger(scene[..i], frame, a, b);
        assert scene[..i + 1] == scene[..i] + [frame];
        assert b in Kids(before, a) <==> Child(scene[..i], a, b);
      }
    }
    assert scene[..|scene|] == scene;
  }

  lemma ChildOfLonger(scene: Scene, frame: Frame, a: Id, b: Id)
    ensures Child(scene + [frame], a, b) <==> Child(scene, a, b) || (frame.id == b && frame.parent == Some(a))
  {
    assert forall i | 0 <= i < |scene| :: (scene + [frame])[i] == scene[i];
    assert (scene + [frame])[|scene|] == frame;
  }

  /** Marks the children not marked before and puts them on the worklist. */
  method Enqueue(kids: seq<Id>, marked: set<Id>, waiting: seq<Id>) returns (reachable: set<Id>, queue: seq<Id>)
    ensures reachable == marked + (set kid | kid in kids)
    ensures forall id :: id in queue <==> id in waiting || id in reachable - marked
    ensures reachable == marked ==> queue == waiting
  {
    reachable, queue := marked, waiting;
    for i := 0 to |kids|
      invariant reachable == marked + (set kid | kid in kids[..i])
      invariant forall id :: id in queue <==> id in waiting || id in reachable - marked
      invariant reachable == marked ==> queue == waiting
    {
      assert kids[..i + 1] == kids[..i] + [kids[i]];
      if kids[i] !in reachable {
        queue := queue + [kids[i]];
        reachable := reachable + {kids[i]};
      }
    }
    assert kids[..|kids|] == kids;
  }

  /** Everything marked and no longer waiting has its children marked. */
  ghost predicate ClosedBut(scene: Scene, reachable: set<Id>, queue: seq<Id>)
  {
    forall a, b | a in reachable && a !in queue && Child(scene, a, b) :: b in reachable
  }

  /** What is marked is reached, and all that is reached is marked or comes after something waiting. */
  ghost predicate Marking(scene: Scene, reachable: set<Id>, queue: seq<Id>)
  {
    && WORLD in reachable && reachable <= Names(scene) + {WORLD}
    && (forall id | id in queue :: id in reachable)
    && (forall id | id in reachable :: Reached(scene, id))
    && ClosedBut(scene, reachable, queue)
  }

  /** Taking one id off the worklist and marking its children keeps the marking. */
  lemma MarkedOn(scene: Scene, marked: set<Id>, waiting: seq<Id>, id: Id, reachable: set<Id>, queue: seq<Id>)
    requires Marking(scene, marked, waiting + [id])
    requires forall kid :: kid in reachable <==> kid in marked || Child(scene, id, kid)
    requires forall other :: other in queue <==> other in waiting || other in reachable - marked
    ensures Marking(scene, reachable, queue)
  {
    assert id in waiting + [id];
    forall kid | Child(scene, id, kid)
      ensures Reached(scene, kid) && kid in Names(scene)
    {
      ReachedChild(scene, id, kid);
    }
    forall a, b | a in reachable && a !in queue && Child(scene, a, b)
      ensures b in reachable
    {
      assert a == id || a !in waiting + [id];
    }
  }

  method MarkReachable(scene: Scene, children: map<Id, seq<Id>>) returns (reachable: set<Id>)
    requires forall a, b :: b in Kids(children, a) <==> Child(scene, a, b)
    ensures forall id :: id in reachable <==> Reached(scene, id)
  {
    var queue := [WORLD];
    reachable := {WORLD};
    assert Reached(scene, WORLD) by { assert Descends(scene, [WORLD]); }
    while queue != []
      invariant Marking(scene, reachable, queue)
      decreases Names(scene) + {WORLD} - reachable, |queue|
    {
      var id := queue[|queue| - 1];
      queue := queue[..|queue| - 1];
      ghost var marked, waiting := reachable, queue;
      reachable, queue := Enqueue(Kids(children, id), reachable, queue);
      MarkedOn(scene, marked, waiting, id, reachable, queue);
    }
    forall id | Reached(scene, id)
      ensures id in reachable
    {
      var path :| Descends(scene, path) && path[|path| - 1] == id;
      ReachedInClosed(scene, reachable, path);
    }
  }

  method CheckConnectivity(scene: Scene) returns (r: Result<(), SceneError>)
    ensures r.Success? <==> forall i | 0 <= i < |scene| :: Reached(scene, scene[i].id)
    ensures r.Failure? ==> r.error.BrokenTopology? && HasFrame(scene, r.error.frame) && !Reached(scene, r.error.frame)
  {
    var children := ChildLists(scene);
    var reachable := MarkReachable(scene, children);
    for i := 0 to |scene|
      invariant forall k | 0 <= k < i :: Reached(scene, scene[k].id)
    {
      if scene[i].id !in reachable { return Failure(BrokenTopology(scene[i].id)); }
    }
    return Success(());
  }

  // ----- The whole topology -----

  /** A simple chain of parents from a frame up to the world. */
  ghost predicate HangsFromWorld(scene: Scene, id: Id)
  {
    exists chain :: Climbs(scene, chain) && Distinct(chain) && chain[0] == id && chain[|chain| - 1] == WORLD
  }

  /** Frames have ids of their own, the world is one of them and has no parent, and every frame hangs
      from it by a simple chain of parents. */
  ghost predicate WellRooted(scene: Scene)
  {
    && UniqueIds(scene) && HasFrame(scene, WORLD) && ParentOf(scene, WORLD) == None
    && forall i | 0 <= i < |scene| :: HangsFromWorld(scene, scene[i].id)
  }

  ghost predicate PassesChecks(scene: Scene)
  {
    && HasFrame(scene, WORLD) && UniqueIds(scene) && ParentsExist(scene)
    && (forall i | 0 <= i < |scene| :: Ends(scene, scene[i].id))
    && (forall i | 0 <= i < |scene| :: Reached(scene, scene[i].id))
  }

  /** An error tells what is wrong with the scene, and that no earlier check fails. */
  ghost predicate Blames(scene: Scene, e: SceneError)
  {
    match e
    case MissingWorld => !HasFrame(scene, WORLD)
    case DuplicateId(id) => HasFrame(scene, WORLD) && Repeats(scene, id)
    case MissingFrame(id) => HasFrame(scene, WORLD) && UniqueIds(scene) && IsParent(scene, id) && !HasFrame(scene, id)
    case BrokenTopology(frame) =>
      && HasFrame(scene, WORLD) && UniqueIds(scene) && ParentsExist(scene) && HasFrame(scene, frame)
      && (!Ends(scene, frame)
          || ((forall i | 0 <= i < |scene| :: Ends(scene, scene[i].id)) && !Reached(scene, frame)))
  }

  /** The five topology checks, in order. */
  method ValidateTopology(scene: Scene) returns (r: Result<(), SceneError>)
    ensures r.Success? <==> WellRooted(scene)
    ensures r.Failure? ==> Blames(scene, r.error)
  {
    ChecksDecide(scene);
    r := CheckWorldExists(scene);
    if r.Failure? { return; }
    r := CheckIdsUnique(scene);
    if r.Failure? { return; }
    r := CheckParentsExist(scene);
    if r.Failure? { return; }
    r := CheckNoCycles(scene);
    if r.Failure? { return; }
    r := CheckConnectivity(scene);
  }

  lemma ParentOfFrame(scene: Scene, i: nat)
    requires UniqueIds(scene) && i < |scene|
    ensures ParentOf(scene, scene[i].id) == scene[i].parent
  {
    ByIdHolds(scene);
    assert HasFrame(scene, scene[i].id);
  }

  lemma HasParentIsFrame(scene: Scene, id: Id)
    requires ParentOf(scene, id).Some?
    ensures HasFrame(scene, id)
  {
    ByIdHolds(scene);
  }

  lemma ChildIsParentOf(scene: Scene, a: Id, b: Id)
    requires UniqueIds(scene)
    ensures Child(scene, a, b) <==> ParentOf(scene, b) == Some(a)
  {
    ByIdHolds(scene);
    if Child(scene, a, b) {
      var i :| 0 <= i < |scene| && scene[i].id == b && scene[i].parent == Some(a);
      ParentOfFrame(scene, i);
    }
  }

  function Reversed(ids: seq<Id>): (r: seq<Id>)
    ensures |r| == |ids|
    ensures forall i | 0 <= i < |ids| :: r[i] == ids[|ids| - 1 - i]
  {
    if ids == [] then [] else Reversed(ids[1..]) + [ids[0]]
  }

  /** A path down from the world is a climb, read backwards. */
  lemma DownIsUp(scene: Scene, path: seq<Id>)
    requires UniqueIds(scene) && Descends(scene, path)
    ensures Climbs(scene, Reversed(path))
  {
    var chain, n := Reversed(path), |path|;
    forall i | 0 < i < n
      ensures Up(scene, chain, i)
    {
      assert Down(scene, path, n - i);
      ChildIsParentOf(scene, path[n - i - 1], path[n - i]);
    }
  }

  lemma UpIsDown(scene: Scene, chain: seq<Id>)
    requires UniqueIds(scene) && Climbs(scene, chain) && chain[|chain| - 1] == WORLD
    ensures Descends(scene, Reversed(chain))
  {
    var path, n := Reversed(chain), |chain|;
    forall i | 0 < i < n
      ensures Down(scene, path, i)
    {
      assert Up(scene, chain, n - i);
      ChildIsParentOf(scene, chain[n - i], chain[n - i - 1]);
    }
  }

  /** Only the world is reached without having a parent. */
  lemma TopIsWorld(scene: Scene, id: Id)
    requires UniqueIds(scene) && Reached(scene, id) && ParentOf(scene, id) == None
    ensures id == WORLD
  {
    var path :| Descends(scene, path) && path[|path| - 1] == id;
    if |path| > 1 {
      assert Down(scene, path, |path| - 1);
      ChildIsParentOf(scene, path[|path| - 2], id);
    }
  }

  lemma TopIsFrame(scene: Scene, top: seq<Id>)
    requires UniqueIds(scene) && ParentsExist(scene) && Tops(scene, top) && HasFrame(scene, top[0])
    ensures HasFrame(scene, top[|top| - 1])
  {
    var n := |top|;
    if n > 1 {
      assert Up(scene, top, n - 1);
      ChildIsParentOf(scene, top[n - 1], top[n - 2]);
    }
  }

  /** If everything is reached from the world and no chain of parents runs on for ever, the world is
      where they end. */
  lemma WorldIsTop(scene: Scene)
    requires PassesChecks(scene)
    ensures ParentOf(scene, WORLD) == None
  {
    var w :| 0 <= w < |scene| && scene[w].id == WORLD;
    var top :| Tops(scene, top) && top[0] == WORLD;
    var last := top[|top| - 1];
    TopIsFrame(scene, top);
    var k :| 0 <= k < |scene| && scene[k].id == last;
    TopIsWorld(scene, last);
  }

  lemma PassesIsRooted(scene: Scene)
    requires PassesChecks(scene)
    ensures WellRooted(scene)
  {
    WorldIsTop(scene);
    forall i | 0 <= i < |scene|
      ensures HangsFromWorld(scene, scene[i].id)
    {
      var path :| Descends(scene, path) && path[|path| - 1] == scene[i].id;
      DownIsUp(scene, path);
      assert Tops(scene, Reversed(path));
      TopsIsSimple(scene, Reversed(path));
    }
  }

  lemma RootedPasses(scene: Scene)
    requires WellRooted(scene)
    ensures PassesChecks(scene)
  {
    forall i | 0 <= i < |scene|
      ensures Ends(scene, scene[i].id) && Reached(scene, scene[i].id)
      ensures scene[i].parent.Some? ==> HasFrame(scene, scene[i].parent.value)
    {
      var chain :| Climbs(scene, chain) && Distinct(chain) && chain[0] == scene[i].id && chain[|chain| - 1] == WORLD;
      assert Tops(scene, chain);
      UpIsDown(scene, chain);
      assert Reversed(chain)[|chain| - 1] == scene[i].id;
      ParentOfFrame(scene, i);
      if |chain| > 1 {
        assert Up(scene, chain, 1);
        if |chain| > 2 {
          assert Up(scene, chain, 2);
          HasParentIsFrame(scene, chain[1]);
        }
      }
    }
  }

  /** The five checks pass just when the frames form a tree rooted at the world. */
  lemma ChecksDecide(scene: Scene)
    ensures PassesChecks(scene) <==> WellRooted(scene)
  {
    if PassesChecks(scene) { PassesIsRooted(scene); }
    if WellRooted(scene) { RootedPasses(scene); }
  }
}
