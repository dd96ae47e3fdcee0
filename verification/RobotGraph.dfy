/** Breadth-first numbering of a robot's links: backend/crates/thalos-models/src/graph.rs. */
module RobotGraphs {
  import opened Prelude
  import opened Names

  datatype Joint = Joint(parent: Name, child: Name)

  /** Joints are kept under their own names. */
  datatype Robot = Robot(links: set<Name>, joints: map<Name, Joint>, root: Name)

  // ----- The joints of one parent -----

  datatype Entry = Entry(joint: Name, child: Name)

  predicate ByJoint(s: seq<Entry>)
  {
    forall i, k | 0 <= i < k < |s| :: Less(s[i].joint, s[k].joint)
  }

  function Elements(s: seq<Entry>): set<Entry> { set e | e in s }

  lemma NonEmpty(s: seq<Entry>)
    requires s != []
    ensures Elements(s) != {}
  {
    assert s[0] in Elements(s);
  }

  /** Sorted insertion. */
  function Insert(s: seq<Entry>, e: Entry): seq<Entry>
  {
    if s == [] || !Less(e.joint, s[|s| - 1].joint) then s + [e]
    else Insert(s[..|s| - 1], e) + [s[|s| - 1]]
  }

  lemma {:induction false} InsertKeepsOrder(s: seq<Entry>, e: Entry)
    requires ByJoint(s) && forall k | 0 <= k < |s| :: s[k].joint != e.joint
    ensures ByJoint(Insert(s, e)) && Elements(Insert(s, e)) == Elements(s) + {e}
  {
    if s != [] {
      var n := |s| - 1;
      LessIsStrict(e.joint, s[n].joint);
      if Less(e.joint, s[n].joint) {
        InsertKeepsOrder(s[..n], e);
        assert s == s[..n] + [s[n]];
        var front := Insert(s[..n], e);
        forall i | 0 <= i < |front|
          ensures Less(front[i].joint, s[n].joint)
        {
          assert front[i] in Elements(front);
        }
      } else {
        forall i | 0 <= i < n
          ensures Less(s[i].joint, e.joint)
        {
          LessIsTransitive(s[i].joint, s[n].joint, e.joint);
        }
      }
    }
  }

  /** Entries in strict order are determined by which entries there are. */
  lemma {:induction false} OrderIsUnique(s: seq<Entry>, t: seq<Entry>)
    requires ByJoint(s) && ByJoint(t) && Elements(s) == Elements(t)
    ensures s == t
  {
    if s == [] || t == [] {
      if s != [] { NonEmpty(s); }
      if t != [] { NonEmpty(t); }
    } else {
      var n, k := |s| - 1, |t| - 1;
      SameLast(s, t);
      forall e
        ensures e in s[..n] <==> e in t[..k]
      {
        LessIsStrict(s[n].joint, s[n].joint);
        assert e in s <==> e in Elements(s);
        assert e in t <==> e in Elements(t);
      }
      assert Elements(s[..n]) == Elements(t[..k]);
      OrderIsUnique(s[..n], t[..k]);
    }
  }

  lemma SameLast(s: seq<Entry>, t: seq<Entry>)
    requires ByJoint(s) && ByJoint(t) && Elements(s) == Elements(t) && s != [] && t != []
    ensures s[|s| - 1] == t[|t| - 1]
  {
    var a, b := s[|s| - 1], t[|t| - 1];
    assert a in Elements(s) && b in Elements(t);
    var i :| 0 <= i < |t| && t[i] == a;
    var k :| 0 <= k < |s| && s[k] == b;
    LessIsStrict(a.joint, b.joint);
  }

  ghost predicate NamedApart(es: set<Entry>)
  {
    forall e, f | e in es && f in es && e.joint == f.joint :: e == f
  }

  /** A set of entries in order. */
  ghost function InOrder(es: set<Entry>): (s: seq<Entry>)
    requires NamedApart(es)
    ensures ByJoint(s) && Elements(s) == es
  {
    if es == {} then []
    else
      var e :| e in es;
      var rest := InOrder(es - {e});
      assert forall k | 0 <= k < |rest| :: rest[k] in Elements(rest);
      InsertKeepsOrder(rest, e);
      Insert(rest, e)
  }

  function EntrySet(robot: Robot, link: Name): set<Entry>
  {
    set j | j in robot.joints && robot.joints[j].parent == link :: Entry(j, robot.joints[j].child)
  }

  /** The joints out of a link, by joint name. */
  ghost function EntriesOf(robot: Robot, link: Name): (s: seq<Entry>)
    ensures ByJoint(s) && Elements(s) == EntrySet(robot, link)
  {
    InOrder(EntrySet(robot, link))
  }

  // ----- The graph -----

  datatype Graph = Graph(
    linkName: seq<Name>, jointName: seq<Name>,
    parent: seq<Option<nat>>, parentJoint: seq<Option<nat>>, children: seq<seq<nat>>,
    linkIndex: map<Name, nat>, jointIndex: map<Name, nat>)

  predicate Sized(g: Graph)
  {
    |g.parent| == |g.parentJoint| == |g.children| == |g.linkName|
  }

  function RootOnly(root: Name): Graph
  {
    Graph([root], [], [None], [None], [[]], map[root := 0], map[])
  }

  function AddChild(g: Graph, u: nat, e: Entry): Graph
    requires Sized(g) && u < |g.linkName|
  {
    var c, j := |g.linkName|, |g.jointName|;
    Graph(
      g.linkName + [e.child], g.jointName + [e.joint],
      g.parent + [Some(u)], g.parentJoint + [Some(j)], g.children[u := g.children[u] + [c]] + [[]],
      g.linkIndex[e.child := c], g.jointIndex[e.joint := j])
  }

  /** Takes up one joint of the link `u`: a child that is unknown or already numbered is skipped. */
  function Take(robot: Robot, g: Graph, u: nat, e: Entry): (h: Graph)
    requires Sized(g) && u < |g.linkName|
    ensures Sized(h) && g.linkName <= h.linkName
  {
    if e.child !in robot.links || e.child in g.linkName then g else AddChild(g, u, e)
  }

  function Expand(robot: Robot, g: Graph, u: nat, entries: seq<Entry>): (h: Graph)
    requires Sized(g) && u < |g.linkName|
    ensures Sized(h) && g.linkName <= h.linkName
  {
    if entries == [] then g
    else Take(robot, Expand(robot, g, u, entries[..|entries| - 1]), u, entries[|entries| - 1])
  }

  // ----- What the numbering keeps -----

  predicate Distinct(names: seq<Name>)
  {
    forall i, k | 0 <= i < k < |names| :: names[i] != names[k]
  }

  predicate IndexOf(index: map<Name, nat>, names: seq<Name>)
  {
    && (forall i | 0 <= i < |names| :: names[i] in index && index[names[i]] == i)
    && (forall name | name in index :: index[name] < |names| && names[index[name]] == name)
  }

  /** Links are numbered once each, from the root, and all but the root are known. */
  predicate Numbered(robot: Robot, g: Graph)
  {
    && Sized(g) && |g.linkName| > 0 && |g.jointName| == |g.linkName| - 1
    && g.linkName[0] == robot.root
    && Distinct(g.linkName) && IndexOf(g.linkIndex, g.linkName)
    && forall c | 1 <= c < |g.linkName| :: g.linkName[c] in robot.links
  }

  /** The link `c` hangs from a link numbered before it, by the joint numbered before it. */
  predicate Hangs(robot: Robot, g: Graph, c: nat)
    requires Numbered(robot, g) && 1 <= c < |g.linkName|
  {
    && g.parent[c].Some? && g.parent[c].value < c && g.parentJoint[c] == Some(c - 1)
    && g.jointName[c - 1] in robot.joints
    && robot.joints[g.jointName[c - 1]] == Joint(g.linkName[g.parent[c].value], g.linkName[c])
  }

  predicate Tree(robot: Robot, g: Graph)
  {
    && Numbered(robot, g)
    && g.parent[0] == None && g.parentJoint[0] == None
    && Distinct(g.jointName) && IndexOf(g.jointIndex, g.jointName)
    && forall c | 1 <= c < |g.linkName| :: Hangs(robot, g, c)
  }

  /** Parent numbers never fall. */
  predicate ParentsAscend(robot: Robot, g: Graph)
    requires Tree(robot, g)
  {
    forall c, d | 1 <= c <= d < |g.linkName| :: Hangs(robot, g, c) && Hangs(robot, g, d) && g.parent[c].value <= g.parent[d].value
  }

  lemma {:induction false} DistinctInSet(names: seq<Name>, s: set<Name>)
    requires Distinct(names) && forall k | 0 <= k < |names| :: names[k] in s
    ensures |names| <= |s|
  {
    if names != [] {
      var n := |names| - 1;
      DistinctInSet(names[..n], s - {names[n]});
    }
  }

  lemma NumberedIsBounded(robot: Robot, g: Graph)
    requires Numbered(robot, g)
    ensures |g.linkName| <= |robot.links + {robot.root}|
  {
    DistinctInSet(g.linkName, robot.links + {robot.root});
  }

  lemma TakeNumbers(robot: Robot, g: Graph, u: nat, e: Entry)
    requires Numbered(robot, g) && u < |g.linkName|
    ensures Numbered(robot, Take(robot, g, u, e))
  {
  }

  lemma TakeAppends(robot: Robot, g: Graph, u: nat, e: Entry)
    requires Sized(g) && u < |g.linkName|
    ensures var h := Take(robot, g, u, e);
            if e.child !in robot.links || e.child in g.linkName then h == g
            else
              && (set name | name in h.linkName) == (set name | name in g.linkName) + {e.child}
              && h.linkName[u + 1..] == g.linkName[u + 1..] + [e.child]
  {
  }

  lemma {:induction false} ExpandNumbers(robot: Robot, g: Graph, u: nat, entries: seq<Entry>)
    requires Numbered(robot, g) && u < |g.linkName|
    ensures Numbered(robot, Expand(robot, g, u, entries))
  {
    if entries != [] {
      ExpandNumbers(robot, g, u, entries[..|entries| - 1]);
      TakeNumbers(robot, Expand(robot, g, u, entries[..|entries| - 1]), u, entries[|entries| - 1]);
    }
  }

  /** The breadth-first completion of a graph whose links before `head` have been expanded. */
  ghost function Bfs(robot: Robot, g: Graph, head: nat): Graph
    requires Numbered(robot, g) && head <= |g.linkName|
    decreases |robot.links + {robot.root}| - head
  {
    if head == |g.linkName| then g
    else
      ExpandNumbers(robot, g, head, EntriesOf(robot, g.linkName[head]));
      NumberedIsBounded(robot, g);
      Bfs(robot, Expand(robot, g, head, EntriesOf(robot, g.linkName[head])), head + 1)
  }

  /** The graph of a robot: a function of the robot alone. */
  ghost function GraphOf(robot: Robot): Graph { Bfs(robot, RootOnly(robot.root), 0) }

  // ----- Construction -----

  /** An order in which the joint map may be walked. */
  predicate Enumerates(order: seq<Name>, joints: map<Name, Joint>)
  {
    Distinct(order) && (set j | j in order) == joints.Keys
  }

  /** What the joints listed so far put under a link. */
  function EntriesAmong(robot: Robot, seen: seq<Name>, link: Name): set<Entry>
  {
    set j | j in seen && j in robot.joints && robot.joints[j].parent == link :: Entry(j, robot.joints[j].child)
  }

  predicate OncePerJoint(s: seq<Entry>)
  {
    forall i, k | 0 <= i < k < |s| :: s[i].joint != s[k].joint
  }

  function At(childMap: map<Name, seq<Entry>>, link: Name): seq<Entry>
  {
    if link in childMap then childMap[link] else []
  }

  predicate Group(robot: Robot, seen: seq<Name>, link: Name, group: seq<Entry>)
  {
    Elements(group) == EntriesAmong(robot, seen, link) && OncePerJoint(group)
  }

  lemma GroupGrows(robot: Robot, seen: seq<Name>, j: Name, link: Name, group: seq<Entry>)
    requires Group(robot, seen, link, group) && j in robot.joints && j !in seen
    ensures var e := Entry(j, robot.joints[j].child);
            Group(robot, seen + [j], link, if robot.joints[j].parent == link then group + [e] else group)
  {
    var e := Entry(j, robot.joints[j].child);
    assert forall f | f in group :: f in Elements(group) && f.joint in seen;
    assert Elements(group + [e]) == Elements(group) + {e};
    assert EntriesAmong(robot, seen + [j], link)
        == EntriesAmong(robot, seen, link) + if robot.joints[j].parent == link then {e} else {};
  }

  /** Groups the joints under their parents, in the order walked. */
  method GroupByParent(robot: Robot, order: seq<Name>) returns (childMap: map<Name, seq<Entry>>)
    requires Enumerates(order, robot.joints)
    ensures forall link :: Group(robot, order, link, At(childMap, link))
  {
    childMap := map[];
    for i := 0 to |order|
      invariant forall link :: Group(robot, order[..i], link, At(childMap, link))
    {
      var j := order[i];
      assert j in set k | k in order;
      var link, e := robot.joints[j].parent, Entry(j, robot.joints[j].child);
      ghost var before := childMap;
      childMap := childMap[link := At(childMap, link) + [e]];
      forall other
        ensures Group(robot, order[..i + 1], other, At(childMap, other))
      {
        GroupGrows(robot, order[..i], j, other, At(before, other));
        assert order[..i + 1] == order[..i] + [j];
      }
    }
    assert order[..|order|] == order;
  }

  lemma AllAmong(robot: Robot, order: seq<Name>, link: Name)
    requires Enumerates(order, robot.joints)
    ensures EntriesAmong(robot, order, link) == EntrySet(robot, link)
  {
  }

  method SortByJoint(s: seq<Entry>) returns (sorted: seq<Entry>)
    requires OncePerJoint(s)
    ensures ByJoint(sorted) && Elements(sorted) == Elements(s)
  {
    sorted := [];
    for i := 0 to |s|
      invariant ByJoint(sorted) && Elements(sorted) == Elements(s[..i])
    {
      assert forall k | 0 <= k < |sorted| :: sorted[k] in Elements(sorted);
      InsertKeepsOrder(sorted, s[i]);
      assert Elements(s[..i + 1]) == Elements(s[..i]) + {s[i]};
      sorted := Insert(sorted, s[i]);
    }
    assert s[..|s|] == s;
  }

  /** Sorts every group; the order in which the groups are visited is left open. */
  method SortGroups(robot: Robot, order: seq<Name>, groups: map<Name, seq<Entry>>) returns (childMap: map<Name, seq<Entry>>)
    requires Enumerates(order, robot.joints) && forall link :: Group(robot, order, link, At(groups, link))
    ensures forall link :: At(childMap, link) == EntriesOf(robot, link)
  {
    childMap := groups;
    var left := groups.Keys;
    while left != {}
      invariant left <= groups.Keys == childMap.Keys
      invariant forall link | link in left :: childMap[link] == groups[link]
      invariant forall link | link in childMap && link !in left :: childMap[link] == EntriesOf(robot, link)
    {
      var link :| link in left;
      left := left - {link};
      assert Group(robot, order, link, At(groups, link));
      var sorted := SortByJoint(childMap[link]);
      AllAmong(robot, order, link);
      OrderIsUnique(sorted, EntriesOf(robot, link));
      childMap := childMap[link := sorted];
    }
    forall link | link !in childMap
      ensures EntriesOf(robot, link) == []
    {
      assert Group(robot, order, link, At(groups, link));
      AllAmong(robot, order, link);
      OrderIsUnique([], EntriesOf(robot, link));
    }
  }

  /** The graph does not depend on the order in which the joint map is walked. */
  method FromRobot(robot: Robot, order: seq<Name>) returns (g: Graph)
    requires Enumerates(order, robot.joints)
    ensures g == GraphOf(robot)
  {
    var childMap := GroupByParent(robot, order);
    childMap := SortGroups(robot, order, childMap);
    g := RootOnly(robot.root);
    var visited, queue := {robot.root}, [robot.root];
    ghost var head := 0;
    while queue != []
      invariant Numbered(robot, g) && head <= |g.linkName| && queue == g.linkName[head..]
      invariant visited == set name | name in g.linkName
      invariant GraphOf(robot) == Bfs(robot, g, head)
      decreases |robot.links + {robot.root}| - head
    {
      NumberedIsBounded(robot, g);
      var currentName := queue[0];
      assert currentName == g.linkName[head];
      queue := queue[1..];
      var currentId := g.linkIndex[currentName];
      assert At(childMap, currentName) == EntriesOf(robot, currentName);
      if currentName in childMap {
        g, visited, queue := ExpandLink(robot, g, currentId, childMap[currentName], visited, queue);
      }
      head := head + 1;
    }
  }

  method ExpandLink(robot: Robot, before: Graph, u: nat, entries: seq<Entry>, seen: set<Name>, waiting: seq<Name>)
    returns (g: Graph, visited: set<Name>, queue: seq<Name>)
    requires Numbered(robot, before) && u < |before.linkName|
    requires seen == set name | name in before.linkName
    requires waiting == before.linkName[u + 1..]
    ensures Numbered(robot, g) && g == Expand(robot, before, u, entries)
    ensures visited == set name | name in g.linkName
    ensures queue == g.linkName[u + 1..]
  {
    g, visited, queue := before, seen, waiting;
    for i := 0 to |entries|
      invariant Numbered(robot, g) && g == Expand(robot, before, u, entries[..i])
      invariant visited == set name | name in g.linkName
      invariant queue == g.linkName[u + 1..]
    {
      assert entries[..i + 1][..i] == entries[..i];
      var e := entries[i];
      TakeNumbers(robot, g, u, e);
      TakeAppends(robot, g, u, e);
      if e.child !in robot.links || e.child in visited { continue; }
      visited := visited + {e.child};
      g := AddChild(g, u, e);
      queue := queue + [e.child];
    }
    assert entries[..|entries|] == entries;
  }
}
