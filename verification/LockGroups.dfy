/** The components of the lock-order graph in terms of its edges, and the cycles inside them. */
module LockGroups {
  import opened Basics
  import opened LockOrder
  import C = Components
  import opened Cycles

  // ---------------------------------------------------------------------------------------------
  // Components of a set of edges
  // ---------------------------------------------------------------------------------------------

  ghost predicate Trail(edges: set<Pair>, path: seq<Name>) {
    path != [] && forall k :: 0 < k < |path| ==> (path[k - 1], path[k]) in edges
  }

  ghost predicate Linked(edges: set<Pair>, a: Name, b: Name) {
    exists path: seq<Name> :: Trail(edges, path) && path[0] == a && Last(path) == b
  }

  /** At least two names, all those that some one of them reaches and is reached from. */
  ghost predicate Component(edges: set<Pair>, members: set<Name>) {
    |members| >= 2 && exists x :: x in members && AreLinkedWith(edges, x, members)
  }

  ghost predicate AreLinkedWith(edges: set<Pair>, x: Name, members: set<Name>) {
    forall y :: y in members <==> Linked(edges, x, y) && Linked(edges, y, x)
  }

  /** Some component has at least as many cycles as the cap. */
  ghost predicate CapReached(edges: set<Pair>, cap: int) {
    exists members :: Component(edges, members) && AtLeast(edges, members, cap)
  }

  // ---------------------------------------------------------------------------------------------
  // Adjacency lists
  // ---------------------------------------------------------------------------------------------

  ghost predicate Represents(adj: C.Adjacency, pairs: set<Pair>) {
    C.Closed(adj) && forall a: Name, b: Name :: C.Edge(adj, a, b) <==> (a, b) in pairs
  }

  method Adjacency(pairs: set<Pair>) returns (adj: C.Adjacency)
    ensures Represents(adj, pairs)
  {
    adj := map[];
    var todo := pairs;
    while todo != {}
      invariant Represents(adj, pairs - todo)
      decreases todo
    {
      var e :| e in todo;
      adj := adj[e.0 := C.Children(adj, e.0) + [e.1]];
      adj := adj[e.1 := C.Children(adj, e.1)];
      todo := todo - {e};
    }
  }

  lemma {:induction false} AlongCycle(adj: C.Adjacency, pairs: set<Pair>, c: seq<Name>, i: nat, j: nat)
    requires Represents(adj, pairs) && IsCycle(pairs, c) && i <= j < |c|
    ensures C.Reaches(adj, c[i], c[j])
    decreases j - i
  {
    if i == j {
      C.ReachesItself(adj, c[i]);
    } else {
      AlongCycle(adj, pairs, c, i, j - 1);
      assert (c[j - 1], NextOn(c, j - 1)) in pairs;
      assert C.Edge(adj, c[j - 1], c[j]);
      C.ReachesEdge(adj, c[i], c[j - 1], c[j]);
    }
  }

  lemma AroundCycle(adj: C.Adjacency, pairs: set<Pair>, c: seq<Name>, k: nat)
    requires Represents(adj, pairs) && IsCycle(pairs, c) && k < |c|
    ensures C.Reaches(adj, c[0], c[k]) && C.Reaches(adj, c[k], c[0])
  {
    AlongCycle(adj, pairs, c, 0, k);
    AlongCycle(adj, pairs, c, k, |c| - 1);
    assert (c[|c| - 1], NextOn(c, |c| - 1)) in pairs;
    assert C.Edge(adj, c[|c| - 1], c[0]);
    C.ReachesEdge(adj, c[k], c[|c| - 1], c[0]);
  }

  lemma CycleStaysInGroup(adj: C.Adjacency, pairs: set<Pair>, result: seq<seq<Name>>, c: seq<Name>, i: nat)
    requires Represents(adj, pairs) && C.AreComponents(adj, result) && IsCycle(pairs, c)
    requires i < |result| && c[0] in result[i]
    ensures Within(ToSet(result[i]), c)
  {
    forall x | x in c ensures x in ToSet(result[i]) {
      var k :| 0 <= k < |c| && c[k] == x;
      AroundCycle(adj, pairs, c, k);
      C.ComponentsAreMaximal(adj, result, i, c[0], x);
    }
  }

  /** Every elementary cycle lies inside one component, which then has at least two members. */
  lemma CycleLiesInOneComponent(adj: C.Adjacency, pairs: set<Pair>, result: seq<seq<Name>>, c: seq<Name>)
    returns (i: nat)
    requires Represents(adj, pairs) && C.AreComponents(adj, result) && IsCycle(pairs, c)
    ensures i < |result| && |result[i]| >= 2 && Within(ToSet(result[i]), c)
  {
    assert (c[0], NextOn(c, 0)) in pairs;
    assert C.Edge(adj, c[0], NextOn(c, 0));
    assert C.InSome(result, |result|, c[0]);
    i :| 0 <= i < |result| && c[0] in result[i];
    CycleStaysInGroup(adj, pairs, result, c, i);
    AtLeastTwo(result[i], c[0], c[1]);
  }

  lemma AtLeastTwo(s: seq<Name>, x: Name, y: Name)
    requires x in s && y in ToSet(s) && x != y
    ensures |s| >= 2
  {
  }

  // ---------------------------------------------------------------------------------------------
  // The groups found are the components
  // ---------------------------------------------------------------------------------------------

  lemma {:induction false} TrailReaches(adj: C.Adjacency, edges: set<Pair>, path: seq<Name>)
    requires Represents(adj, edges) && Trail(edges, path)
    ensures C.Reaches(adj, path[0], Last(path))
    decreases |path|
  {
    if |path| == 1 {
      C.ReachesItself(adj, path[0]);
    } else {
      var k := |path| - 1;
      TrailReaches(adj, edges, Init(path));
      assert (path[k - 1], path[k]) in edges;
      assert C.Edge(adj, path[k - 1], path[k]);
      C.ReachesEdge(adj, path[0], path[k - 1], path[k]);
    }
  }

  lemma {:induction false} ReachesTrail(adj: C.Adjacency, edges: set<Pair>, k: nat, a: Name, b: Name)
    requires Represents(adj, edges) && C.ReachesIn(adj, k, a, b)
    ensures Linked(edges, a, b)
  {
    if k == 0 {
      assert Trail(edges, [a]) && Last([a]) == b;
    } else {
      var m :| C.ReachesIn(adj, k - 1, a, m) && C.Edge(adj, m, b);
      ReachesTrail(adj, edges, k - 1, a, m);
      var path: seq<Name> :| Trail(edges, path) && path[0] == a && Last(path) == m;
      assert Trail(edges, path + [b]) && Last(path + [b]) == b;
    }
  }

  lemma LinkedIsReaches(adj: C.Adjacency, edges: set<Pair>, a: Name, b: Name)
    requires Represents(adj, edges)
    ensures Linked(edges, a, b) <==> C.Reaches(adj, a, b)
  {
    if Linked(edges, a, b) {
      var path: seq<Name> :| Trail(edges, path) && path[0] == a && Last(path) == b;
      TrailReaches(adj, edges, path);
    }
    if C.Reaches(adj, a, b) {
      var k: nat :| C.ReachesIn(adj, k, a, b);
      ReachesTrail(adj, edges, k, a, b);
    }
  }

  lemma GroupIsLinked(adj: C.Adjacency, edges: set<Pair>, groups: seq<seq<Name>>, i: nat, x: Name)
    requires Represents(adj, edges) && C.AreComponents(adj, groups) && i < |groups| && x in groups[i]
    ensures AreLinkedWith(edges, x, ToSet(groups[i]))
  {
    forall y ensures y in ToSet(groups[i]) <==> Linked(edges, x, y) && Linked(edges, y, x) {
      C.ComponentsAreMaximal(adj, groups, i, x, y);
      LinkedIsReaches(adj, edges, x, y);
      LinkedIsReaches(adj, edges, y, x);
    }
  }

  lemma GroupIsComponent(adj: C.Adjacency, edges: set<Pair>, groups: seq<seq<Name>>, i: nat)
    requires Represents(adj, edges) && C.AreComponents(adj, groups) && i < |groups| && |groups[i]| >= 2
    ensures Component(edges, ToSet(groups[i]))
  {
    GroupIsLinked(adj, edges, groups, i, groups[i][0]);
    NoDupSize(groups[i]);
    assert groups[i][0] in ToSet(groups[i]);
  }

  /** A name that is linked with another one is on an edge. */
  lemma LinkedIsOnEdge(adj: C.Adjacency, edges: set<Pair>, x: Name, y: Name)
    requires Represents(adj, edges) && Linked(edges, x, y) && x != y
    ensures x in adj
  {
    var path: seq<Name> :| Trail(edges, path) && path[0] == x && Last(path) == y;
    assert (path[0], path[1]) in edges;
    assert C.Edge(adj, path[0], path[1]);
  }

  lemma SomeOther(members: set<Name>, x: Name) returns (y: Name)
    requires |members| >= 2
    ensures y in members && y != x
  {
    if members <= {x} {
      SubsetSize(members, {x});
    }
    y :| y in members && y != x;
  }

  lemma ComponentIsGroup(adj: C.Adjacency, edges: set<Pair>, groups: seq<seq<Name>>, members: set<Name>)
    returns (i: nat)
    requires Represents(adj, edges) && C.AreComponents(adj, groups) && Component(edges, members)
    ensures i < |groups| && |groups[i]| >= 2 && ToSet(groups[i]) == members
  {
    var x :| x in members && AreLinkedWith(edges, x, members);
    var y := SomeOther(members, x);
    LinkedIsOnEdge(adj, edges, x, y);
    i := GroupOf(adj, groups, x);
    GroupIsLinked(adj, edges, groups, i, x);
    SameMembers(edges, x, ToSet(groups[i]), members);
    NoDupSize(groups[i]);
  }

  lemma GroupOf(adj: C.Adjacency, groups: seq<seq<Name>>, x: Name) returns (i: nat)
    requires C.AreComponents(adj, groups) && x in adj
    ensures i < |groups| && x in groups[i] && NoDup(groups[i])
  {
    assert C.InSome(groups, |groups|, x);
    i :| 0 <= i < |groups| && x in groups[i];
  }

  lemma SameMembers(edges: set<Pair>, x: Name, a: set<Name>, b: set<Name>)
    requires AreLinkedWith(edges, x, a) && AreLinkedWith(edges, x, b)
    ensures a == b
  {
    assert forall z :: z in a <==> z in b;
  }

  // ---------------------------------------------------------------------------------------------
  // Every cycle lies in a component
  // ---------------------------------------------------------------------------------------------

  ghost function Ends(edges: set<Pair>): set<Name> {
    (set e | e in edges :: e.0) + (set e | e in edges :: e.1)
  }

  lemma LinkedStaysOnEdges(edges: set<Pair>, x: Name, y: Name)
    requires Linked(edges, x, y) && x in Ends(edges)
    ensures y in Ends(edges)
  {
    var path: seq<Name> :| Trail(edges, path) && path[0] == x && Last(path) == y;
    if |path| > 1 {
      assert (path[|path| - 2], path[|path| - 1]) in edges;
    }
  }

  lemma CycleLinks(edges: set<Pair>, c: seq<Name>, k: nat)
    requires IsCycle(edges, c) && k < |c|
    ensures Linked(edges, c[0], c[k]) && Linked(edges, c[k], c[0])
  {
    var there, back := c[..k + 1], c[k..] + [c[0]];
    forall i | 0 < i < |there| ensures (there[i - 1], there[i]) in edges {
      assert (c[i - 1], NextOn(c, i - 1)) in edges;
    }
    forall i | 0 < i < |back| ensures (back[i - 1], back[i]) in edges {
      assert (c[k + i - 1], NextOn(c, k + i - 1)) in edges;
    }
    assert Trail(edges, there) && Last(there) == c[k];
    assert Trail(edges, back) && back[0] == c[k] && Last(back) == c[0];
  }

  /** The names linked with the first one of a cycle, both ways. */
  lemma CycleHasComponent(edges: set<Pair>, c: seq<Name>) returns (members: set<Name>)
    requires IsCycle(edges, c)
    ensures Component(edges, members) && Within(members, c)
  {
    var x := c[0];
    members := set y | y in Ends(edges) && Linked(edges, x, y) && Linked(edges, y, x);
    assert (c[0], NextOn(c, 0)) in edges;
    assert x in Ends(edges);
    forall y | Linked(edges, x, y) ensures y in Ends(edges) {
      LinkedStaysOnEdges(edges, x, y);
    }
    forall y | y in c ensures y in members {
      var k :| 0 <= k < |c| && c[k] == y;
      CycleLinks(edges, c, k);
    }
    assert c[0] in c && c[1] in c;
    SubsetSize({c[0], c[1]}, members);
    assert AreLinkedWith(edges, x, members);
  }

  /** No cycle lies in two of them. */
  lemma ComponentsAreDisjoint(edges: set<Pair>, a: set<Name>, b: set<Name>, x: Name)
    requires Component(edges, a) && Component(edges, b) && x in a && x in b
    ensures a == b
  {
    ComponentOfMember(edges, a, x);
    ComponentOfMember(edges, b, x);
  }

  lemma ComponentOfMember(edges: set<Pair>, members: set<Name>, x: Name)
    requires Component(edges, members) && x in members
    ensures AreLinkedWith(edges, x, members)
  {
    var z :| z in members && AreLinkedWith(edges, z, members);
    forall y ensures y in members <==> Linked(edges, x, y) && Linked(edges, y, x) {
      if y in members {
        LinkedTrans(edges, x, z, y);
        LinkedTrans(edges, y, z, x);
      }
      if Linked(edges, x, y) && Linked(edges, y, x) {
        LinkedTrans(edges, z, x, y);
        LinkedTrans(edges, y, x, z);
      }
    }
  }

  lemma LinkedTrans(edges: set<Pair>, a: Name, b: Name, c: Name)
    requires Linked(edges, a, b) && Linked(edges, b, c)
    ensures Linked(edges, a, c)
  {
    var first: seq<Name> :| Trail(edges, first) && first[0] == a && Last(first) == b;
    var second: seq<Name> :| Trail(edges, second) && second[0] == b && Last(second) == c;
    var path := first + second[1..];
    forall k | 0 < k < |path| ensures (path[k - 1], path[k]) in edges {
      if k >= |first| {
        var i := k - |first| + 1;
        assert (second[i - 1], second[i]) in edges;
        assert path[k] == second[i] && path[k - 1] == if i == 1 then b else second[i - 1];
      }
    }
    assert Trail(edges, path) && Last(path) == c;
  }
}
