/** What the breadth-first numbering guarantees: backend/crates/thalos-models/src/graph.rs:100-182. */
module RobotGraphProofs {
  import opened Prelude
  import opened Names
  import opened RobotGraphs

  // ----- What each joint keeps -----

  /** The children of a link are the links that hang from it, in rising order. */
  predicate Files(g: Graph, u: nat)
    requires Sized(g) && u < |g.linkName|
  {
    && (forall i, k | 0 <= i < k < |g.children[u]| :: g.children[u][i] < g.children[u][k])
    && (forall c | c in g.children[u] :: c < |g.linkName|)
    && (forall c | 0 <= c < |g.linkName| :: c in g.children[u] <==> g.parent[c] == Some(u))
  }

  /** A link has a number, and hangs from `u` or from a link before it. */
  ghost predicate Placed(g: Graph, name: Name, u: nat)
    requires Sized(g)
  {
    exists v :: 0 <= v < |g.linkName| && g.linkName[v] == name && (g.parent[v].Some? ==> g.parent[v].value <= u)
  }

  /** Every known child of `u` is placed. */
  ghost predicate Expanded(robot: Robot, g: Graph, u: nat)
    requires Sized(g) && u < |g.linkName|
  {
    forall j | j in robot.joints && robot.joints[j].parent == g.linkName[u] && robot.joints[j].child in robot.links ::
      Placed(g, robot.joints[j].child, u)
  }

  /** Siblings are numbered by the names of their joints. */
  predicate SiblingsByJoint(robot: Robot, g: Graph)
    requires Tree(robot, g)
  {
    forall c, d | 1 <= c < d < |g.linkName| && Hangs(robot, g, c) && Hangs(robot, g, d) && g.parent[c] == g.parent[d] ::
      Less(g.jointName[c - 1], g.jointName[d - 1])
  }

  predicate Below(robot: Robot, g: Graph, u: nat)
    requires Tree(robot, g)
  {
    forall c | 1 <= c < |g.linkName| && Hangs(robot, g, c) :: g.parent[c].value <= u
  }

  /** The links before `u` are expanded, and `u` may be under way. */
  ghost predicate Partial(robot: Robot, g: Graph, u: nat)
  {
    && Tree(robot, g) && u <= |g.linkName|
    && ParentsAscend(robot, g) && SiblingsByJoint(robot, g) && Below(robot, g, u)
    && (forall v | 0 <= v < |g.linkName| :: Files(g, v))
    && (forall v | 0 <= v < u :: Expanded(robot, g, v))
  }

  predicate FromLink(robot: Robot, g: Graph, u: nat, e: Entry)
    requires Sized(g) && u < |g.linkName|
  {
    e.joint in robot.joints && robot.joints[e.joint] == Joint(g.linkName[u], e.child)
  }

  lemma AddKeepsJointNames(robot: Robot, g: Graph, u: nat, e: Entry)
    requires Tree(robot, g) && u < |g.linkName| && FromLink(robot, g, u, e) && e.child !in g.linkName
    ensures var h := AddChild(g, u, e); Distinct(h.jointName) && IndexOf(h.jointIndex, h.jointName)
  {
    forall i | 0 <= i < |g.jointName|
      ensures g.jointName[i] != e.joint
    {
      assert Hangs(robot, g, i + 1);
    }
  }

  lemma AddKeepsTree(robot: Robot, g: Graph, u: nat, e: Entry)
    requires Tree(robot, g) && u < |g.linkName| && FromLink(robot, g, u, e)
    requires e.child in robot.links && e.child !in g.linkName
    ensures Tree(robot, AddChild(g, u, e))
  {
    var h, n := AddChild(g, u, e), |g.linkName|;
    TakeNumbers(robot, g, u, e);
    AddKeepsJointNames(robot, g, u, e);
    forall c | 1 <= c <= n
      ensures Hangs(robot, h, c)
    {
      assert c < n ==> Hangs(robot, g, c);
    }
  }

  lemma AddKeepsParents(robot: Robot, g: Graph, u: nat, e: Entry)
    requires Tree(robot, g) && u < |g.linkName| && Tree(robot, AddChild(g, u, e))
    requires ParentsAscend(robot, g) && Below(robot, g, u)
    ensures ParentsAscend(robot, AddChild(g, u, e)) && Below(robot, AddChild(g, u, e), u)
  {
    AddKeepsBelow(robot, g, u, e);
    AddKeepsAscent(robot, g, u, e);
  }

  lemma AddedParents(g: Graph, u: nat, e: Entry, c: nat)
    requires Sized(g) && u < |g.linkName| && c <= |g.linkName|
    ensures AddChild(g, u, e).parent[c] == if c < |g.linkName| then g.parent[c] else Some(u)
  {
  }

  lemma AddKeepsBelow(robot: Robot, g: Graph, u: nat, e: Entry)
    requires Tree(robot, g) && u < |g.linkName| && Tree(robot, AddChild(g, u, e)) && Below(robot, g, u)
    ensures Below(robot, AddChild(g, u, e), u)
  {
    var h, n := AddChild(g, u, e), |g.linkName|;
    forall c | 1 <= c <= n && Hangs(robot, h, c)
      ensures h.parent[c].value <= u
    {
      AddedParents(g, u, e, c);
      assert c < n ==> Hangs(robot, g, c);
    }
  }

  lemma AddKeepsAscent(robot: Robot, g: Graph, u: nat, e: Entry)
    requires Tree(robot, g) && u < |g.linkName| && Tree(robot, AddChild(g, u, e))
    requires ParentsAscend(robot, g) && Below(robot, g, u)
    ensures ParentsAscend(robot, AddChild(g, u, e))
  {
    var h, n := AddChild(g, u, e), |g.linkName|;
    forall c, d | 1 <= c < d <= n && Hangs(robot, h, c) && Hangs(robot, h, d)
      ensures h.parent[c].value <= h.parent[d].value
    {
      AddedParents(g, u, e, c);
      AddedParents(g, u, e, d);
      assert Hangs(robot, g, c) && (d < n ==> Hangs(robot, g, d));
    }
  }

  lemma AddKeepsSiblings(robot: Robot, g: Graph, u: nat, e: Entry)
    requires Tree(robot, g) && u < |g.linkName| && Tree(robot, AddChild(g, u, e)) && SiblingsByJoint(robot, g)
    requires forall c | 1 <= c < |g.linkName| && g.parent[c] == Some(u) :: Less(g.jointName[c - 1], e.joint)
    ensures SiblingsByJoint(robot, AddChild(g, u, e))
  {
    var h, n := AddChild(g, u, e), |g.linkName|;
    forall c, d | 1 <= c < d <= n && h.parent[c] == h.parent[d]
      ensures Less(h.jointName[c - 1], h.jointName[d - 1])
    {
      assert Hangs(robot, g, c);
      assert d < n ==> Hangs(robot, g, d);
    }
  }

  lemma AddFiles(robot: Robot, g: Graph, u: nat, e: Entry, v: nat)
    requires Tree(robot, g) && u < |g.linkName| && v <= |g.linkName|
    requires v < |g.linkName| ==> Files(g, v)
    ensures Files(AddChild(g, u, e), v)
  {
    var h, n := AddChild(g, u, e), |g.linkName|;
    if v < n {
      assert forall i | 0 <= i < |g.children[v]| :: g.children[v][i] in g.children[v];
    } else {
      forall c | 0 <= c <= n
        ensures h.parent[c] != Some(n)
      {
        assert 1 <= c < n ==> Hangs(robot, g, c);
      }
    }
  }

  lemma AddKeepsPlaced(g: Graph, u: nat, e: Entry, name: Name, v: nat)
    requires Sized(g) && u < |g.linkName| && Placed(g, name, v)
    ensures Placed(AddChild(g, u, e), name, v)
  {
    var k :| 0 <= k < |g.linkName| && g.linkName[k] == name && (g.parent[k].Some? ==> g.parent[k].value <= v);
    assert AddChild(g, u, e).linkName[k] == name;
  }

  lemma AddKeepsExpanded(robot: Robot, g: Graph, u: nat, e: Entry, v: nat)
    requires Sized(g) && u < |g.linkName| && v < |g.linkName| && Expanded(robot, g, v)
    ensures Expanded(robot, AddChild(g, u, e), v)
  {
    forall j | j in robot.joints && robot.joints[j].parent == g.linkName[v] && robot.joints[j].child in robot.links
      ensures Placed(AddChild(g, u, e), robot.joints[j].child, v)
    {
      AddKeepsPlaced(g, u, e, robot.joints[j].child, v);
    }
  }

  lemma AddKeepsPartial(robot: Robot, g: Graph, u: nat, e: Entry)
    requires Partial(robot, g, u) && u < |g.linkName| && FromLink(robot, g, u, e)
    requires e.child in robot.links && e.child !in g.linkName
    requires forall c | 1 <= c < |g.linkName| && g.parent[c] == Some(u) :: Less(g.jointName[c - 1], e.joint)
    ensures Partial(robot, AddChild(g, u, e), u)
  {
    AddKeepsTree(robot, g, u, e);
    AddKeepsParents(robot, g, u, e);
    AddKeepsSiblings(robot, g, u, e);
    forall v | 0 <= v <= |g.linkName|
      ensures Files(AddChild(g, u, e), v)
    {
      AddFiles(robot, g, u, e, v);
    }
    forall v | 0 <= v < u
      ensures Expanded(robot, AddChild(g, u, e), v)
    {
      AddKeepsExpanded(robot, g, u, e, v);
    }
  }

  lemma TakePlaces(robot: Robot, g: Graph, u: nat, e: Entry)
    requires Tree(robot, g) && Below(robot, g, u) && u < |g.linkName| && e.child in robot.links
    ensures Placed(Take(robot, g, u, e), e.child, u)
  {
    var h := Take(robot, g, u, e);
    if e.child in g.linkName {
      var v :| 0 <= v < |g.linkName| && g.linkName[v] == e.child;
      assert v > 0 ==> Hangs(robot, g, v);
    } else {
      assert h.linkName[|g.linkName|] == e.child;
    }
  }

  // ----- What expanding a link keeps -----

  /** Every child of `u` so far hangs by one of these joints. */
  ghost predicate HungBy(g: Graph, u: nat, entries: seq<Entry>)
    requires Sized(g) && |g.jointName| == |g.linkName| - 1
  {
    forall c | 1 <= c < |g.linkName| && g.parent[c] == Some(u) ::
      exists k :: 0 <= k < |entries| && entries[k].joint == g.jointName[c - 1]
  }

  ghost predicate AllPlaced(robot: Robot, g: Graph, u: nat, entries: seq<Entry>)
    requires Sized(g)
  {
    forall k | 0 <= k < |entries| && entries[k].child in robot.links :: Placed(g, entries[k].child, u)
  }

  lemma NamesBefore(g: Graph, u: nat, entries: seq<Entry>, e: Entry)
    requires Sized(g) && |g.jointName| == |g.linkName| - 1 && ByJoint(entries + [e]) && HungBy(g, u, entries)
    ensures HungBy(g, u, entries + [e])
    ensures forall c | 1 <= c < |g.linkName| && g.parent[c] == Some(u) :: Less(g.jointName[c - 1], e.joint)
  {
    var all := entries + [e];
    forall c | 1 <= c < |g.linkName| && g.parent[c] == Some(u)
      ensures exists k :: 0 <= k < |all| && all[k].joint == g.jointName[c - 1]
      ensures Less(g.jointName[c - 1], e.joint)
    {
      var k :| 0 <= k < |entries| && entries[k].joint == g.jointName[c - 1];
      assert all[k] == entries[k] && all[|entries|] == e;
    }
  }

  lemma AddHangs(g: Graph, u: nat, entries: seq<Entry>, e: Entry)
    requires Sized(g) && |g.jointName| == |g.linkName| - 1 && u < |g.linkName| && HungBy(g, u, entries + [e])
    ensures HungBy(AddChild(g, u, e), u, entries + [e])
  {
    assert (entries + [e])[|entries|].joint == e.joint;
  }

  lemma TakeKeepsPlaced(robot: Robot, g: Graph, u: nat, entries: seq<Entry>, e: Entry)
    requires Tree(robot, g) && Below(robot, g, u) && u < |g.linkName| && AllPlaced(robot, g, u, entries)
    ensures AllPlaced(robot, Take(robot, g, u, e), u, entries + [e])
  {
    var h := Take(robot, g, u, e);
    if e.child in robot.links { TakePlaces(robot, g, u, e); }
    forall k | 0 <= k < |entries| && entries[k].child in robot.links
      ensures Placed(h, entries[k].child, u)
    {
      if h != g { AddKeepsPlaced(g, u, e, entries[k].child, u); }
    }
  }

  lemma TakeKeeps(robot: Robot, g: Graph, u: nat, entries: seq<Entry>, e: Entry)
    requires Partial(robot, g, u) && u < |g.linkName| && FromLink(robot, g, u, e)
    requires ByJoint(entries + [e]) && HungBy(g, u, entries) && AllPlaced(robot, g, u, entries)
    ensures var h := Take(robot, g, u, e);
            && Partial(robot, h, u) && HungBy(h, u, entries + [e]) && AllPlaced(robot, h, u, entries + [e])
  {
    NamesBefore(g, u, entries, e);
    TakeKeepsPlaced(robot, g, u, entries, e);
    if e.child in robot.links && e.child !in g.linkName {
      AddKeepsPartial(robot, g, u, e);
      AddHangs(g, u, entries, e);
    }
  }

  lemma {:induction false} ExpandKeeps(robot: Robot, g: Graph, u: nat, entries: seq<Entry>)
    requires Partial(robot, g, u) && u < |g.linkName| && HungBy(g, u, [])
    requires ByJoint(entries) && forall k | 0 <= k < |entries| :: FromLink(robot, g, u, entries[k])
    ensures var h := Expand(robot, g, u, entries);
            && Partial(robot, h, u) && HungBy(h, u, entries) && AllPlaced(robot, h, u, entries)
  {
    if entries != [] {
      var n := |entries| - 1;
      ExpandKeeps(robot, g, u, entries[..n]);
      assert entries[..n] + [entries[n]] == entries;
      TakeKeeps(robot, Expand(robot, g, u, entries[..n]), u, entries[..n], entries[n]);
    }
  }

  lemma AllPlacedIsExpanded(robot: Robot, h: Graph, u: nat, entries: seq<Entry>)
    requires Sized(h) && u < |h.linkName| && Elements(entries) == EntrySet(robot, h.linkName[u]) && AllPlaced(robot, h, u, entries)
    ensures Expanded(robot, h, u)
  {
    forall j | j in robot.joints && robot.joints[j].parent == h.linkName[u] && robot.joints[j].child in robot.links
      ensures Placed(h, robot.joints[j].child, u)
    {
      assert Entry(j, robot.joints[j].child) in Elements(entries);
      var k :| 0 <= k < |entries| && entries[k] == Entry(j, robot.joints[j].child);
    }
  }

  lemma PartialNext(robot: Robot, h: Graph, u: nat)
    requires Partial(robot, h, u) && u < |h.linkName| && Expanded(robot, h, u)
    ensures Partial(robot, h, u + 1) && HungBy(h, u + 1, [])
  {
  }

  lemma EntriesAreFromLink(robot: Robot, g: Graph, u: nat)
    requires Sized(g) && u < |g.linkName|
    ensures forall e | e in EntriesOf(robot, g.linkName[u]) :: FromLink(robot, g, u, e)
  {
    assert forall e | e in EntriesOf(robot, g.linkName[u]) :: e in Elements(EntriesOf(robot, g.linkName[u]));
  }

  lemma ExpandCompletes(robot: Robot, g: Graph, u: nat)
    requires Partial(robot, g, u) && u < |g.linkName| && HungBy(g, u, [])
    ensures var h := Expand(robot, g, u, EntriesOf(robot, g.linkName[u]));
            Partial(robot, h, u + 1) && HungBy(h, u + 1, [])
  {
    var entries := EntriesOf(robot, g.linkName[u]);
    var h := Expand(robot, g, u, entries);
    EntriesAreFromLink(robot, g, u);
    ExpandKeeps(robot, g, u, entries);
    AllPlacedIsExpanded(robot, h, u, entries);
    PartialNext(robot, h, u);
  }

  lemma BfsStep(robot: Robot, g: Graph, head: nat) returns (next: Graph)
    requires Partial(robot, g, head) && HungBy(g, head, []) && head < |g.linkName|
    ensures Partial(robot, next, head + 1) && HungBy(next, head + 1, []) && head < |robot.links + {robot.root}|
    ensures Bfs(robot, g, head) == Bfs(robot, next, head + 1)
  {
    next := Expand(robot, g, head, EntriesOf(robot, g.linkName[head]));
    NumberedIsBounded(robot, g);
    ExpandNumbers(robot, g, head, EntriesOf(robot, g.linkName[head]));
    ExpandCompletes(robot, g, head);
  }

  lemma {:induction false} BfsKeeps(robot: Robot, g: Graph, head: nat) returns (h: Graph)
    requires Partial(robot, g, head) && HungBy(g, head, [])
    ensures h == Bfs(robot, g, head) && Partial(robot, h, |h.linkName|)
    decreases |robot.links + {robot.root}| - head
  {
    h := g;
    if head < |g.linkName| {
      var next := BfsStep(robot, g, head);
      h := BfsKeeps(robot, next, head + 1);
    }
  }

  /** The graph of a robot: a tree over numbered links in which each link hangs from an earlier one
      by the joint numbered just before it, parents come in order, siblings by joint name, children
      lists agree with parents, and no known child of a numbered link is missing. */
  lemma GraphIsTree(robot: Robot)
    ensures Partial(robot, GraphOf(robot), |GraphOf(robot).linkName|)
  {
    var h := BfsKeeps(robot, RootOnly(robot.root), 0);
  }

  // ----- Depth is distance -----

  function Depth(robot: Robot, g: Graph, c: nat): nat
    requires Tree(robot, g) && c < |g.linkName|
  {
    if c == 0 then 0
    else
      assert Hangs(robot, g, c);
      1 + Depth(robot, g, g.parent[c].value)
  }

  ghost predicate Edge(robot: Robot, a: Name, b: Name)
  {
    b in robot.links && exists j :: j in robot.joints && robot.joints[j] == Joint(a, b)
  }

  /** A walk from the root along joints to known links. */
  ghost predicate Walk(robot: Robot, w: seq<Name>)
  {
    w != [] && w[0] == robot.root && forall i | 1 <= i < |w| :: StepAt(robot, w, i)
  }

  ghost predicate StepAt(robot: Robot, w: seq<Name>, i: nat)
    requires 1 <= i < |w|
  {
    Edge(robot, w[i - 1], w[i])
  }

  lemma {:induction false} DepthAscends(robot: Robot, g: Graph, c: nat, d: nat)
    requires Tree(robot, g) && ParentsAscend(robot, g) && c <= d < |g.linkName|
    ensures Depth(robot, g, c) <= Depth(robot, g, d)
  {
    if c > 0 {
      assert Hangs(robot, g, c) && Hangs(robot, g, d);
      DepthAscends(robot, g, g.parent[c].value, g.parent[d].value);
    }
  }

  lemma EdgeIsNumbered(robot: Robot, g: Graph, u: nat, name: Name) returns (v: nat)
    requires Partial(robot, g, |g.linkName|) && u < |g.linkName| && Edge(robot, g.linkName[u], name)
    ensures v < |g.linkName| && g.linkName[v] == name && Depth(robot, g, v) <= Depth(robot, g, u) + 1
  {
    assert Expanded(robot, g, u);
    assert Placed(g, name, u);
    v :| 0 <= v < |g.linkName| && g.linkName[v] == name && (g.parent[v].Some? ==> g.parent[v].value <= u);
    if v > 0 {
      assert Hangs(robot, g, v);
      DepthAscends(robot, g, g.parent[v].value, u);
    }
  }

  lemma WalkBegins(robot: Robot, w: seq<Name>)
    requires Walk(robot, w) && |w| > 1
    ensures Walk(robot, w[..|w| - 1]) && Edge(robot, w[|w| - 2], w[|w| - 1])
  {
    var front := w[..|w| - 1];
    forall i | 1 <= i < |front|
      ensures StepAt(robot, front, i)
    {
      assert StepAt(robot, w, i);
    }
    assert StepAt(robot, w, |w| - 1);
  }

  /** Where a walk ends is numbered, at a depth no greater than the walk is long. */
  lemma {:induction false} WalkIsNoShorter(robot: Robot, g: Graph, w: seq<Name>) returns (v: nat)
    requires Partial(robot, g, |g.linkName|) && Walk(robot, w)
    ensures v < |g.linkName| && g.linkName[v] == w[|w| - 1] && Depth(robot, g, v) <= |w| - 1
  {
    if |w| == 1 {
      v := 0;
    } else {
      WalkBegins(robot, w);
      var u := WalkIsNoShorter(robot, g, w[..|w| - 1]);
      v := EdgeIsNumbered(robot, g, u, w[|w| - 1]);
    }
  }

  /** The branch of the tree to a link is a walk as long as the link is deep. */
  lemma {:induction false} BranchIsWalk(robot: Robot, g: Graph, c: nat) returns (w: seq<Name>)
    requires Tree(robot, g) && c < |g.linkName|
    ensures Walk(robot, w) && w[|w| - 1] == g.linkName[c] && |w| == Depth(robot, g, c) + 1
  {
    if c == 0 {
      w := [robot.root];
    } else {
      assert Hangs(robot, g, c);
      var branch := BranchIsWalk(robot, g, g.parent[c].value);
      w := branch + [g.linkName[c]];
      forall i | 1 <= i < |w|
        ensures StepAt(robot, w, i)
      {
        assert i < |branch| ==> StepAt(robot, branch, i);
      }
    }
  }

  /** Exactly the links that a walk reaches are numbered. */
  lemma NumbersTheReachable(robot: Robot, name: Name)
    ensures name in GraphOf(robot).linkName <==> exists w :: Walk(robot, w) && w[|w| - 1] == name
  {
    var g := GraphOf(robot);
    GraphIsTree(robot);
    if name in g.linkName {
      var c :| 0 <= c < |g.linkName| && g.linkName[c] == name;
      var w := BranchIsWalk(robot, g, c);
    }
    if w :| Walk(robot, w) && w[|w| - 1] == name {
      var v := WalkIsNoShorter(robot, g, w);
    }
  }

  /** The depth of a link is the length of the shortest walk to it. */
  lemma DepthIsDistance(robot: Robot, c: nat)
    requires c < |GraphOf(robot).linkName|
    ensures Tree(robot, GraphOf(robot))
    ensures exists w :: Walk(robot, w) && w[|w| - 1] == GraphOf(robot).linkName[c] && |w| - 1 == Depth(robot, GraphOf(robot), c)
    ensures forall w :: Walk(robot, w) && w[|w| - 1] == GraphOf(robot).linkName[c] ==> |w| - 1 >= Depth(robot, GraphOf(robot), c)
  {
    var g := GraphOf(robot);
    GraphIsTree(robot);
    var w := BranchIsWalk(robot, g, c);
    forall w | Walk(robot, w) && w[|w| - 1] == g.linkName[c]
      ensures |w| - 1 >= Depth(robot, g, c)
    {
      var v := WalkIsNoShorter(robot, g, w);
      assert v == c;
    }
  }
}
