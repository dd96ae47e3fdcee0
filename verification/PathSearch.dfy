/** Depth-first path search in the link tree: backend/crates/thalos-models/src/graph.rs:248-309. */
module PathSearch {
  import opened Prelude
  import opened Names
  import opened RobotGraphs
  import opened RobotGraphProofs

  // ----- Parent chains -----

  /** What the search needs of a graph, and every graph built from a robot is. */
  predicate Rooted(g: Graph)
  {
    && Sized(g) && |g.linkName| > 0 && g.parent[0] == None && g.parentJoint[0] == None
    && (forall c | 1 <= c < |g.linkName| :: g.parent[c].Some? && g.parent[c].value < c && g.parentJoint[c] == Some(c - 1))
    && (forall u | 0 <= u < |g.linkName| :: Files(g, u))
  }

  lemma GraphIsRooted(robot: Robot)
    ensures Rooted(GraphOf(robot)) && Numbered(robot, GraphOf(robot))
  {
    GraphIsTree(robot);
    var g := GraphOf(robot);
    forall c | 1 <= c < |g.linkName|
      ensures g.parent[c].Some? && g.parent[c].value < c && g.parentJoint[c] == Some(c - 1)
    {
      assert Hangs(robot, g, c);
    }
  }

  /** `r` is `t` or one of its ancestors. */
  predicate Above(g: Graph, r: nat, t: nat)
    requires Rooted(g) && t < |g.linkName|
    decreases t
  {
    r == t || (t > 0 && Above(g, r, g.parent[t].value))
  }

  /** The chain of parents from `t` up to `r`, reversed. */
  function Chain(g: Graph, r: nat, t: nat): (chain: seq<nat>)
    requires Rooted(g) && t < |g.linkName| && Above(g, r, t)
    ensures chain != [] && chain[0] == r && chain[|chain| - 1] == t
    decreases t
  {
    if r == t then [t] else Chain(g, r, g.parent[t].value) + [t]
  }

  predicate Linked(g: Graph, links: seq<nat>, i: nat)
    requires Rooted(g) && 0 < i < |links|
  {
    links[i] < |g.linkName| && g.parent[links[i]] == Some(links[i - 1])
  }

  /** Each link after the first hangs from the one before it. */
  predicate Descends(g: Graph, links: seq<nat>)
    requires Rooted(g)
  {
    links != [] && links[0] < |g.linkName| && forall i | 0 < i < |links| :: Linked(g, links, i)
  }

  lemma {:induction false} ChainDescends(g: Graph, r: nat, t: nat)
    requires Rooted(g) && t < |g.linkName| && Above(g, r, t)
    ensures Descends(g, Chain(g, r, t))
    decreases t
  {
    if r != t {
      var p := g.parent[t].value;
      ChainDescends(g, r, p);
      forall i | 0 < i < |Chain(g, r, t)|
        ensures Linked(g, Chain(g, r, t), i)
      {
        assert i < |Chain(g, r, p)| ==> Linked(g, Chain(g, r, p), i);
      }
    }
  }

  /** There is one way down from `r` to `t` at most. */
  lemma {:induction false} OnlyChain(g: Graph, links: seq<nat>, r: nat, t: nat)
    requires Rooted(g) && Descends(g, links) && links[0] == r && links[|links| - 1] == t
    ensures t < |g.linkName| && Above(g, r, t) && links == Chain(g, r, t)
    decreases |links|
  {
    var n := |links| - 1;
    if n > 0 {
      var before := links[..n];
      assert Linked(g, links, n);
      forall i | 0 < i < |before|
        ensures Linked(g, before, i)
      {
        assert Linked(g, links, i);
      }
      OnlyChain(g, before, r, links[n - 1]);
      assert links == before + [t];
      AboveIsEarlier(g, r, links[n - 1]);
    }
  }

  lemma {:induction false} AboveIsEarlier(g: Graph, r: nat, t: nat)
    requires Rooted(g) && t < |g.linkName| && Above(g, r, t)
    ensures r <= t && forall k | k in Chain(g, r, t) :: r <= k <= t
    decreases t
  {
    if r != t { AboveIsEarlier(g, r, g.parent[t].value); }
  }

  lemma ChildHangs(g: Graph, r: nat, c: nat)
    requires Rooted(g) && r < |g.linkName|
    ensures c in g.children[r] ==> r < c < |g.linkName| && g.parent[c] == Some(r) && g.parentJoint[c] == Some(c - 1)
    ensures c < |g.linkName| && g.parent[c] == Some(r) ==> c in g.children[r]
  {
    assert Files(g, r);
  }

  /** The next link on the way down. */
  lemma {:induction false} NextDown(g: Graph, r: nat, t: nat) returns (c: nat)
    requires Rooted(g) && t < |g.linkName| && Above(g, r, t) && r != t
    ensures r < |g.linkName| && c in g.children[r] && Above(g, c, t)
    decreases t
  {
    var p := g.parent[t].value;
    if p == r {
      c := t;
    } else {
      c := NextDown(g, r, p);
      ChildHangs(g, r, c);
      AboveIsEarlier(g, c, p);
    }
    ChildHangs(g, r, c);
  }

  /** The way down from a link goes on from its child. */
  lemma {:induction false} ChildIsBelow(g: Graph, r: nat, c: nat, t: nat)
    requires Rooted(g) && r < |g.linkName| && c in g.children[r] && t < |g.linkName| && Above(g, c, t)
    ensures Above(g, r, t) && r != t && Chain(g, r, t) == [r] + Chain(g, c, t)
    decreases t
  {
    ChildHangs(g, r, c);
    AboveIsEarlier(g, c, t);
    if c != t {
      ChildIsBelow(g, r, c, g.parent[t].value);
    } else {
      assert Chain(g, r, r) == [r];
    }
  }

  // ----- The search -----

  function JointAbove(g: Graph, v: nat): nat
    requires Rooted(g)
  {
    if v < |g.linkName| && g.parentJoint[v].Some? then g.parentJoint[v].value else 0
  }

  function JointsAlong(g: Graph, links: seq<nat>): seq<nat>
    requires Rooted(g)
  {
    if |links| <= 1 then [] else [JointAbove(g, links[1])] + JointsAlong(g, links[1..])
  }

  predicate JoinedAt(g: Graph, links: seq<nat>, joints: seq<nat>, i: nat)
    requires Rooted(g) && i < |joints| == |links| - 1
  {
    links[i + 1] < |g.linkName| && g.parentJoint[links[i + 1]] == Some(joints[i])
  }

  /** The joints of a path are the parent joints of its links but the first. */
  predicate Joined(g: Graph, links: seq<nat>, joints: seq<nat>)
    requires Rooted(g)
  {
    |joints| == |links| - 1 && forall i | 0 <= i < |joints| :: JoinedAt(g, links, joints, i)
  }

  lemma {:induction false} ChainIsJoined(g: Graph, links: seq<nat>)
    requires Rooted(g) && Descends(g, links)
    ensures Joined(g, links, JointsAlong(g, links))
    decreases |links|
  {
    if |links| > 1 {
      var rest, joints := links[1..], JointsAlong(g, links);
      assert Linked(g, links, 1);
      forall i | 0 < i < |rest|
        ensures Linked(g, rest, i)
      {
        assert Linked(g, links, i + 1);
      }
      ChainIsJoined(g, rest);
      forall i | 0 <= i < |joints|
        ensures JoinedAt(g, links, joints, i)
      {
        assert i > 0 ==> JoinedAt(g, rest, JointsAlong(g, rest), i - 1);
      }
    }
  }

  function Front(chain: seq<nat>): seq<nat>
    requires chain != []
  {
    chain[..|chain| - 1]
  }

  /** The way down to `t` exists and meets no visited link before its end. */
  predicate Open(g: Graph, r: nat, t: nat, visited: set<nat>)
    requires Rooted(g) && t < |g.linkName|
  {
    Above(g, r, t) && forall v | v in Front(Chain(g, r, t)) :: v !in visited
  }

  lemma OpenBelow(g: Graph, r: nat, c: nat, t: nat, visited: set<nat>)
    requires Rooted(g) && r < |g.linkName| && c in g.children[r] && t < |g.linkName| && r !in visited && Above(g, c, t)
    ensures Open(g, c, t, visited + {r}) <==> Open(g, r, t, visited)
  {
    ChildIsBelow(g, r, c, t);
    ChildHangs(g, r, c);
    AboveIsEarlier(g, c, t);
    assert Front(Chain(g, r, t)) == [r] + Front(Chain(g, c, t));
    assert forall v | v in Front(Chain(g, c, t)) :: v in Chain(g, c, t);
  }

  lemma OpenAtFirst(g: Graph, r: nat, t: nat)
    requires Rooted(g) && t < |g.linkName|
    ensures Open(g, r, t, {}) <==> Above(g, r, t)
  {
  }

  lemma BlockedAt(g: Graph, r: nat, t: nat, visited: set<nat>)
    requires Rooted(g) && t < |g.linkName| && r != t && r in visited
    ensures !Open(g, r, t, visited)
  {
  }

  predicate NoneOpen(g: Graph, roots: seq<nat>, t: nat, visited: set<nat>)
    requires Rooted(g) && t < |g.linkName|
  {
    forall c | c in roots :: !Open(g, c, t, visited)
  }

  lemma NoneOpenGrows(g: Graph, roots: seq<nat>, c: nat, t: nat, visited: set<nat>)
    requires Rooted(g) && t < |g.linkName| && NoneOpen(g, roots, t, visited) && !Open(g, c, t, visited)
    ensures NoneOpen(g, roots + [c], t, visited)
  {
  }

  lemma BlockedBelow(g: Graph, r: nat, t: nat, visited: set<nat>)
    requires Rooted(g) && r < |g.linkName| && t < |g.linkName| && r !in visited && r != t
    requires NoneOpen(g, g.children[r], t, visited + {r})
    ensures !Open(g, r, t, visited)
  {
    if Above(g, r, t) {
      var c := NextDown(g, r, t);
      OpenBelow(g, r, c, t, visited);
    }
  }

  function Before(g: Graph, r: nat, t: nat): set<nat>
    requires Rooted(g) && t < |g.linkName| && Above(g, r, t)
  {
    set v | v in Front(Chain(g, r, t))
  }

  lemma ThroughChild(g: Graph, r: nat, c: nat, t: nat)
    requires Rooted(g) && r < |g.linkName| && c in g.children[r] && t < |g.linkName| && Above(g, c, t)
    ensures Above(g, r, t) && Chain(g, r, t) == [r] + Chain(g, c, t)
    ensures JointsAlong(g, Chain(g, r, t)) == [JointAbove(g, c)] + JointsAlong(g, Chain(g, c, t))
    ensures Before(g, r, t) == {r} + Before(g, c, t)
  {
    ChildIsBelow(g, r, c, t);
    assert Chain(g, r, t)[1..] == Chain(g, c, t);
    assert Front(Chain(g, r, t)) == [r] + Front(Chain(g, c, t));
  }

  lemma FoundThrough(g: Graph, r: nat, c: nat, t: nat, visited: set<nat>)
    requires Rooted(g) && r < |g.linkName| && c in g.children[r] && t < |g.linkName| && r in visited && Open(g, c, t, visited)
    ensures Open(g, r, t, visited - {r}) && Chain(g, r, t)[1..] == Chain(g, c, t)
    ensures JointsAlong(g, Chain(g, r, t)) == [JointAbove(g, c)] + JointsAlong(g, Chain(g, c, t))
    ensures Before(g, r, t) == {r} + Before(g, c, t)
  {
    assert visited - {r} + {r} == visited;
    OpenBelow(g, r, c, t, visited - {r});
    ThroughChild(g, r, c, t);
  }

  class Search {
    var links: seq<nat>
    var joints: seq<nat>
    var visited: set<nat>

    constructor ()
      ensures links == [] && joints == [] && visited == {}
    {
      links, joints, visited := [], [], {};
    }

    /** Extends the path by the way down to the target, or leaves everything as it was. */
    method DfsPath(g: Graph, current: nat, target: nat) returns (found: bool)
      requires Rooted(g) && current < |g.linkName| && target < |g.linkName|
      modifies this
      ensures found <==> Open(g, current, target, old(visited))
      ensures !found ==> links == old(links) && joints == old(joints) && visited == old(visited)
      ensures found ==> links == old(links) + Chain(g, current, target)
      ensures found ==> joints == old(joints) + JointsAlong(g, Chain(g, current, target))
      ensures found ==> visited == old(visited) + Before(g, current, target)
      decreases |g.linkName| - current, 2
    {
      links := links + [current];
      if current == target { return true; }
      if current in visited {
        BlockedAt(g, current, target, visited);
        links := links[..|links| - 1];
        return false;
      }
      visited := visited + {current};
      found := TryChildren(g, current, target);
      if found {
        assert Chain(g, current, target) == [current] + Chain(g, current, target)[1..];
        return true;
      }
      BlockedBelow(g, current, target, old(visited));
      visited := visited - {current};
      links := links[..|links| - 1];
    }

    /** The loop over the children of a link that has been entered. */
    method TryChildren(g: Graph, current: nat, target: nat) returns (found: bool)
      requires Rooted(g) && current < |g.linkName| && target < |g.linkName| && current != target
      requires current in visited
      modifies this
      ensures !found ==> links == old(links) && joints == old(joints) && visited == old(visited)
      ensures !found ==> NoneOpen(g, g.children[current], target, visited)
      ensures found ==> Open(g, current, target, old(visited) - {current})
      ensures found ==> links == old(links) + Chain(g, current, target)[1..]
      ensures found ==> joints == old(joints) + JointsAlong(g, Chain(g, current, target))
      ensures found ==> visited == old(visited) + Before(g, current, target)
      decreases |g.linkName| - current, 1
    {
      var children := g.children[current];
      for i := 0 to |children|
        invariant links == old(links) && joints == old(joints) && visited == old(visited)
        invariant NoneOpen(g, children[..i], target, visited)
      {
        assert children[..i + 1] == children[..i] + [children[i]];
        found := TryChild(g, current, children[i], target);
        ChildHangs(g, current, children[i]);
        if found {
          FoundThrough(g, current, children[i], target, old(visited));
          return true;
        }
        NoneOpenGrows(g, children[..i], children[i], target, visited);
      }
      assert children[..|children|] == children;
      return false;
    }

    method TryChild(g: Graph, current: nat, child: nat, target: nat) returns (found: bool)
      requires Rooted(g) && current < |g.linkName| && target < |g.linkName| && child in g.children[current]
      modifies this
      ensures found <==> child < |g.linkName| && Open(g, child, target, old(visited))
      ensures !found ==> links == old(links) && joints == old(joints) && visited == old(visited)
      ensures found ==> links == old(links) + Chain(g, child, target)
      ensures found ==> joints == old(joints) + ([JointAbove(g, child)] + JointsAlong(g, Chain(g, child, target)))
      ensures found ==> visited == old(visited) + Before(g, child, target)
      decreases |g.linkName| - current, 0
    {
      ChildHangs(g, current, child);
      match g.parentJoint[child]
      case None =>
        return false;
      case Some(j) =>
        joints := joints + [j];
        found := DfsPath(g, child, target);
        if !found { joints := joints[..|joints| - 1]; }
    }
  }

  // ----- Paths -----

  datatype Path = Path(links: seq<nat>, joints: seq<nat>)

  /** There is a path just when the root is the target or one of its ancestors, and it is the
      target's parent chain, root first, with the parent joint of each link but the root. */
  method FindPath(g: Graph, root: nat, target: nat) returns (path: Option<Path>)
    requires Rooted(g)
    ensures path.Some? <==> root < |g.linkName| && target < |g.linkName| && Above(g, root, target)
    ensures path.Some? ==> path.value.links == Chain(g, root, target) && Joined(g, path.value.links, path.value.joints)
  {
    if root >= |g.linkName| || target >= |g.linkName| { return None; }
    var search := new Search();
    var found := search.DfsPath(g, root, target);
    OpenAtFirst(g, root, target);
    if !found { return None; }
    ChainDescends(g, root, target);
    ChainIsJoined(g, Chain(g, root, target));
    assert search.joints == JointsAlong(g, Chain(g, root, target));
    return Some(Path(search.links, search.joints));
  }

  method PathByName(robot: Robot, g: Graph, root: Name, target: Name) returns (path: Option<Path>)
    requires g == GraphOf(robot)
    ensures Rooted(g)
    ensures path.Some? <==> exists r, t | 0 <= r < |g.linkName| && 0 <= t < |g.linkName| ::
                              g.linkName[r] == root && g.linkName[t] == target && Above(g, r, t)
    ensures path.Some? ==> Descends(g, path.value.links) && Joined(g, path.value.links, path.value.joints)
    ensures path.Some? ==> exists t | 0 <= t < |g.linkName| ::
                             g.linkName[path.value.links[0]] == root && g.linkName[t] == target && t == path.value.links[|path.value.links| - 1]
  {
    GraphIsRooted(robot);
    if root !in g.linkIndex || target !in g.linkIndex { return None; }
    path := FindPath(g, g.linkIndex[root], g.linkIndex[target]);
    if path.Some? { ChainDescends(g, g.linkIndex[root], g.linkIndex[target]); }
  }
}
