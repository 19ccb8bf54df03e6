/**
 * Pure sync cycles (checks.py): handlers that call each other through ports which take no mutex and cross
 * no thread. The check walks every path, up to a bound, and reports a path that comes back to itself.
 */
module SyncCycles {
  import opened Basics
  import opened Graph

  const DEPTH: nat := 24

  // The port must be purely sync, not sync under one alias and guarded under another.
  predicate PurelySync(g: Graph, port: PortKey) {
    (port, Sync) in g.handlers && (port, Guarded) !in g.handlers && (port, Async) !in g.handlers
  }

  ghost predicate Enters(g: Graph, c: Call, n: Node) {
    (forall kind: Kind :: (c.dest, kind) in g.handlers <==> kind == Sync) && n in Entries(g, c.dest, Sync)
  }

  ghost predicate SyncStep(g: Graph, m: Node, n: Node) {
    exists c :: c in Calls(g, m) && Enters(g, c, n)
  }

  ghost predicate SyncPath(g: Graph, nodes: seq<Node>) {
    forall i :: 0 < i < |nodes| ==> SyncStep(g, nodes[i - 1], nodes[i])
  }

  /** An elementary cycle of handlers. */
  ghost predicate SyncCycle(g: Graph, cycle: seq<Node>) {
    cycle != [] && NoDup(cycle) && SyncPath(g, cycle) && SyncStep(g, Last(cycle), cycle[0])
  }

  /** A path that is about to visit its last handler for the second time, and no other. */
  ghost predicate Lasso(g: Graph, nodes: seq<Node>) {
    1 < |nodes| <= DEPTH + 1 && SyncPath(g, nodes) && NoDup(Init(nodes)) && Last(nodes) in Init(nodes)
  }

  predicate IsStart(g: Graph, n: Node) {
    exists i :: i in g.handlers && i.1 == Sync && n in g.handlers[i]
  }

  // ---------------------------------------------------------------------------------------------
  // What the walk is to report
  // ---------------------------------------------------------------------------------------------

  // The first component of an instance's qualified name, which is all that tells two reports apart.
  type Areas = Name -> Name

  function AreasOf(area: Areas, nodes: seq<Node>): set<Name> {
    set n | n in nodes :: area(n.instance)
  }

  /** Some lasso that starts with `trail` covers exactly the areas `a`. */
  ghost predicate Shows(g: Graph, area: Areas, trail: seq<Node>, a: set<Name>) {
    exists nodes :: trail <= nodes && Lasso(g, nodes) && AreasOf(area, nodes) == a
  }

  ghost predicate ShownPast(g: Graph, area: Areas, trail: seq<Node>, next: set<Node>, a: set<Name>) {
    exists n :: n in next && Shows(g, area, trail + [n], a)
  }

  ghost function Successors(g: Graph, calls: seq<Call>): set<Node> {
    set c, n | c in calls && PurelySync(g, c.dest) && n in Entries(g, c.dest, Sync) :: n
  }

  lemma SuccessorsSnoc(g: Graph, calls: seq<Call>, i: nat)
    requires i < |calls|
    ensures Successors(g, calls[..i + 1]) == Successors(g, calls[..i])
            + if PurelySync(g, calls[i].dest) then ToSet(Entries(g, calls[i].dest, Sync)) else {}
  {
    assert forall c :: c in calls[..i + 1] <==> c in calls[..i] || c == calls[i];
  }

  lemma ShownAtOnce(g: Graph, area: Areas, trail: seq<Node>, a: set<Name>)
    requires trail != [] && |trail| <= DEPTH + 1 && SyncPath(g, trail) && NoDup(Init(trail))
        && Last(trail) in Init(trail)
    ensures Shows(g, area, trail, a) <==> a == AreasOf(area, trail)
  {
    assert Lasso(g, trail);
    var k := |trail| - 1;
    var i :| 0 <= i < k && trail[i] == trail[k];
    forall nodes | trail < nodes ensures !NoDup(Init(nodes)) {
      assert Init(nodes)[i] == Init(nodes)[k];
    }
  }

  lemma ShownTooLate(g: Graph, area: Areas, trail: seq<Node>, a: set<Name>)
    requires |trail| == DEPTH + 1 && NoDup(trail)
    ensures !Shows(g, area, trail, a)
  {
    forall nodes | trail <= nodes ensures !Lasso(g, nodes) {
      if |nodes| == |trail| {
        assert nodes == trail;
        assert trail[|trail| - 1] !in Init(trail);
      }
    }
  }

  lemma ShownByASuccessor(g: Graph, area: Areas, trail: seq<Node>, nodes: seq<Node>)
    requires trail != [] && NoDup(trail) && trail <= nodes && Lasso(g, nodes)
    ensures |trail| < |nodes| && nodes[|trail|] in Successors(g, Calls(g, Last(trail)))
  {
    assert Last(trail) !in Init(trail) && nodes != trail;
    var k := |trail|;
    assert SyncStep(g, nodes[k - 1], nodes[k]);
    var c :| c in Calls(g, nodes[k - 1]) && Enters(g, c, nodes[k]);
  }

  lemma ShownLater(g: Graph, area: Areas, trail: seq<Node>, a: set<Name>)
    requires trail != [] && NoDup(trail)
    ensures Shows(g, area, trail, a) <==> ShownPast(g, area, trail, Successors(g, Calls(g, Last(trail))), a)
  {
    var next := Successors(g, Calls(g, Last(trail)));
    forall nodes | trail <= nodes && Lasso(g, nodes) && AreasOf(area, nodes) == a
      ensures ShownPast(g, area, trail, next, a)
    {
      ShownByASuccessor(g, area, trail, nodes);
      assert trail + [nodes[|trail|]] <= nodes;
      assert Shows(g, area, trail + [nodes[|trail|]], a);
    }
    forall n | n in next && Shows(g, area, trail + [n], a) ensures Shows(g, area, trail, a) {
      var nodes :| trail + [n] <= nodes && Lasso(g, nodes) && AreasOf(area, nodes) == a;
      assert trail <= trail + [n];
    }
  }

  lemma ShownPastUnion(g: Graph, area: Areas, trail: seq<Node>, x: set<Node>, y: set<Node>)
    ensures forall a :: ShownPast(g, area, trail, x + y, a) <==>
        ShownPast(g, area, trail, x, a) || ShownPast(g, area, trail, y, a)
  {
  }

  lemma EntriesExtend(g: Graph, trail: seq<Node>, c: Call)
    requires trail != [] && SyncPath(g, trail) && c in Calls(g, Last(trail)) && PurelySync(g, c.dest)
    ensures forall n :: n in Entries(g, c.dest, Sync) ==> SyncPath(g, trail + [n])
  {
    forall n | n in Entries(g, c.dest, Sync) ensures SyncPath(g, trail + [n]) {
      assert Enters(g, c, n);
    }
  }

  // ---------------------------------------------------------------------------------------------
  // The check
  // ---------------------------------------------------------------------------------------------

  datatype Finding = Finding(areas: set<Name>, subject: seq<PortKey>, evidence: seq<PortKey>)

  /** The last n elements, or all if they are fewer. */
  ghost predicate IsTail<T>(s: seq<T>, n: nat, t: seq<T>) {
    |t| == (if |s| < n then |s| else n) && s[|s| - |t|..] == t
  }

  function Tail<T>(s: seq<T>, n: nat): seq<T> {
    if |s| <= n then s else s[|s| - n..]
  }

  lemma TailIsTail<T>(s: seq<T>, n: nat)
    ensures IsTail(s, n, Tail(s, n))
  {
  }

  /** The ports through which the handlers of the trail are entered. */
  ghost predicate Follows(g: Graph, path: seq<PortKey>, trail: seq<Node>) {
    |path| == |trail| && forall i :: 0 <= i < |path| ==> trail[i] in Entries(g, path[i], Sync)
  }

  /** The finding shows the last ports of a path that comes back to itself. */
  ghost predicate Evidenced(g: Graph, area: Areas, f: Finding) {
    exists path, nodes :: EvidencedBy(g, area, f, path, nodes)
  }

  ghost predicate EvidencedBy(g: Graph, area: Areas, f: Finding, path: seq<PortKey>, nodes: seq<Node>) {
    && Lasso(g, nodes) && Follows(g, path, nodes)
    && f == Finding(AreasOf(area, nodes), Tail(path, 6), Tail(path, 8))
  }

  lemma SameInstances(g: Graph, path: seq<PortKey>, trail: seq<Node>)
    requires Follows(g, path, trail)
    ensures forall i :: 0 <= i < |path| ==> path[i].instance == trail[i].instance
  {
    forall i | 0 <= i < |path| ensures path[i].instance == trail[i].instance {
      assert (path[i], Sync) in g.handlers;
    }
  }

  function AreasAlong(area: Areas, path: seq<PortKey>): set<Name> {
    set p | p in path :: area(p.instance)
  }

  lemma SameAreas(g: Graph, area: Areas, path: seq<PortKey>, trail: seq<Node>)
    requires Follows(g, path, trail)
    ensures AreasAlong(area, path) == AreasOf(area, trail)
  {
    SameInstances(g, path, trail);
    forall p | p in path ensures area(p.instance) in AreasOf(area, trail) {
      var i :| 0 <= i < |path| && path[i] == p;
      assert trail[i] in trail;
    }
    forall n | n in trail ensures area(n.instance) in AreasAlong(area, path) {
      var i :| 0 <= i < |trail| && trail[i] == n;
      assert path[i] in path;
    }
  }

  /** One finding for every set of areas reported. */
  ghost predicate OneForEach(findings: seq<Finding>, reported: set<set<Name>>) {
    && (forall a :: a in reported <==> exists f :: f in findings && f.areas == a)
    && (forall i, j :: 0 <= i < j < |findings| ==> findings[i].areas != findings[j].areas)
  }

  ghost predicate Listed(g: Graph, area: Areas, findings: seq<Finding>, reported: set<set<Name>>) {
    OneForEach(findings, reported) && forall f :: f in findings ==> Evidenced(g, area, f)
  }

  lemma OneMoreForEach(findings: seq<Finding>, reported: set<set<Name>>, f: Finding)
    requires OneForEach(findings, reported) && f.areas !in reported
    ensures OneForEach(findings + [f], reported + {f.areas})
  {
    var more := findings + [f];
    assert forall x :: x in more <==> x in findings || x == f;
    assert more[|findings|] == f;
    forall i, j | 0 <= i < j < |more| ensures more[i].areas != more[j].areas {
      if j == |findings| {
        assert findings[i] in findings;
      }
    }
  }

  lemma ListsOneMore(g: Graph, area: Areas, findings: seq<Finding>, reported: set<set<Name>>, f: Finding)
    requires Listed(g, area, findings, reported) && Evidenced(g, area, f) && f.areas !in reported
    ensures Listed(g, area, findings + [f], reported + {f.areas})
  {
    OneMoreForEach(findings, reported, f);
    assert forall x :: x in findings + [f] <==> x in findings || x == f;
  }

  /** The finding made of a path shows it. */
  lemma IsEvidenced(g: Graph, area: Areas, path: seq<PortKey>, trail: seq<Node>, f: Finding)
    requires Lasso(g, trail) && Follows(g, path, trail)
    requires f == Finding(AreasAlong(area, path), Tail(path, 6), Tail(path, 8))
    ensures Evidenced(g, area, f) && f.areas == AreasOf(area, trail)
  {
    SameAreas(g, area, path, trail);
    assert EvidencedBy(g, area, f, path, trail);
  }

  class Check {
    const g: Graph
    const area: Areas
    var findings: seq<Finding>
    var reported: set<set<Name>>

    ghost predicate Valid()
      reads this
    {
      Listed(g, area, findings, reported)
    }

    constructor (g: Graph, area: Areas)
      ensures Valid() && this.g == g && this.area == area && reported == {} && findings == []
    {
      this.g, this.area, findings, reported := g, area, [], {};
    }

    method Report(path: seq<PortKey>, ghost trail: seq<Node>)
      requires Valid() && Lasso(g, trail) && Follows(g, path, trail)
      modifies this
      ensures Valid() && reported == old(reported) + {AreasOf(area, trail)}
    {
      var cycle := AreasAlong(area, path);
      var f := Finding(cycle, Tail(path, 6), Tail(path, 8));
      IsEvidenced(g, area, path, trail, f);
      if cycle !in reported {
        ListsOneMore(g, area, findings, reported, f);
        reported, findings := reported + {cycle}, findings + [f];
      }
    }

    method Walk(n: Node, path: seq<PortKey>, ghost trail: seq<Node>, onPath: set<Node>)
      requires Valid() && onPath == ToSet(trail) && NoDup(trail) && |trail| <= DEPTH
      requires Follows(g, path, trail + [n]) && SyncPath(g, trail + [n])
      modifies this
      ensures Valid()
      ensures forall a :: a in reported <==> a in old(reported) || Shows(g, area, trail + [n], a)
      decreases DEPTH - |trail|, 0
    {
      ghost var here := trail + [n];
      assert Init(here) == trail && Last(here) == n;
      if n in onPath {
        Report(path, here);
        forall a ensures Shows(g, area, here, a) <==> a == AreasOf(area, here) {
          ShownAtOnce(g, area, here, a);
        }
        return;
      }
      assert NoDup(here);
      if |path| > DEPTH {
        forall a ensures !Shows(g, area, here, a) {
          ShownTooLate(g, area, here, a);
        }
        return;
      }
      assert ToSet(here) == onPath + {n};
      WalkCalls(n, path, here, onPath + {n});
      forall a ensures Shows(g, area, here, a) <==> ShownPast(g, area, here, Successors(g, Calls(g, n)), a) {
        ShownLater(g, area, here, a);
      }
    }

    method WalkCalls(n: Node, path: seq<PortKey>, ghost trail: seq<Node>, onPath: set<Node>)
      requires Valid() && onPath == ToSet(trail) && NoDup(trail) && 0 < |trail| <= DEPTH
      requires Last(trail) == n && Follows(g, path, trail) && SyncPath(g, trail)
      modifies this
      ensures Valid()
      ensures var next := Successors(g, Calls(g, n));
        forall a :: a in reported <==> a in old(reported) || ShownPast(g, area, trail, next, a)
      decreases DEPTH - |trail|, 2
    {
      var calls := Calls(g, n);
      for i := 0 to |calls|
        invariant Valid()
        invariant forall a :: a in reported <==>
            a in old(reported) || ShownPast(g, area, trail, Successors(g, calls[..i]), a)
      {
        var c := calls[i];
        SuccessorsSnoc(g, calls, i);
        if PurelySync(g, c.dest) {
          ghost var next := Entries(g, c.dest, Sync);
          ShownPastUnion(g, area, trail, Successors(g, calls[..i]), ToSet(next));
          EntriesExtend(g, trail, c);
          WalkEntries(c.dest, Entries(g, c.dest, Sync), path, trail, onPath);
        }
      }
      assert calls[..|calls|] == calls;
    }

    method WalkEntries(dest: PortKey, nodes: seq<Node>, path: seq<PortKey>, ghost trail: seq<Node>, onPath: set<Node>)
      requires Valid() && onPath == ToSet(trail) && NoDup(trail) && |trail| <= DEPTH
      requires Follows(g, path, trail) && SyncPath(g, trail)
      requires forall n :: n in nodes ==> n in Entries(g, dest, Sync) && SyncPath(g, trail + [n])
      modifies this
      ensures Valid()
      ensures forall a :: a in reported <==> a in old(reported) || ShownPast(g, area, trail, ToSet(nodes), a)
      decreases DEPTH - |trail|, 1
    {
      for j := 0 to |nodes|
        invariant Valid()
        invariant forall a :: a in reported <==> a in old(reported) || ShownPast(g, area, trail, ToSet(nodes[..j]), a)
      {
        assert ToSet(nodes[..j + 1]) == ToSet(nodes[..j]) + {nodes[j]};
        ShownPastUnion(g, area, trail, ToSet(nodes[..j]), {nodes[j]});
        Walk(nodes[j], path + [dest], trail, onPath);
      }
      assert nodes[..|nodes|] == nodes;
    }

    /** Walks from every sync handler of the topology. */
    method Run()
      requires Valid() && reported == {}
      modifies this
      ensures Valid()
      ensures forall a :: a in reported <==> Reportable(g, area, a)
      ensures findings != [] <==> exists cycle :: SyncCycle(g, cycle) && |cycle| <= 24
    {
      var todo := set i | i in g.handlers && i.1 == Sync;
      ghost var starts: set<Node> := {};
      while todo != {}
        invariant Valid()
        invariant forall i :: i in todo ==> i in g.handlers && i.1 == Sync
        invariant forall n :: IsStart(g, n) <==> n in starts || exists i :: i in todo && n in g.handlers[i]
        invariant forall a :: a in reported <==> ShownPast(g, area, [], starts, a)
        decreases todo
      {
        var i :| i in todo;
        WalkEntries(i.0, g.handlers[i], [], [], {});
        todo, starts := todo - {i}, starts + ToSet(g.handlers[i]);
      }
      forall a ensures a in reported <==> Reportable(g, area, a) {
        StartsShow(g, area, starts, a);
      }
      FindingsMeanCycles(g, area, reported);
      assert findings != [] ==> findings[0] in findings && findings[0].areas in reported;
      assert reported != {} ==> exists a :: a in reported;
    }
  }

  /** The areas of some path that starts in a sync handler and comes back to itself. */
  ghost predicate Reportable(g: Graph, area: Areas, a: set<Name>) {
    exists nodes :: Lasso(g, nodes) && IsStart(g, nodes[0]) && a == AreasOf(area, nodes)
  }

  lemma StartsShow(g: Graph, area: Areas, starts: set<Node>, a: set<Name>)
    requires forall n :: n in starts <==> IsStart(g, n)
    ensures ShownPast(g, area, [], starts, a) <==> Reportable(g, area, a)
  {
    if ShownPast(g, area, [], starts, a) {
      var n :| n in starts && Shows(g, area, [] + [n], a);
      var nodes :| [n] <= nodes && Lasso(g, nodes) && AreasOf(area, nodes) == a;
      assert nodes[0] == n;
    }
    if Reportable(g, area, a) {
      var nodes :| Lasso(g, nodes) && IsStart(g, nodes[0]) && a == AreasOf(area, nodes);
      assert [] + [nodes[0]] <= nodes;
      assert Shows(g, area, [] + [nodes[0]], a);
    }
  }

  lemma CycleToLasso(g: Graph, cycle: seq<Node>)
    requires SyncCycle(g, cycle) && |cycle| <= DEPTH
    ensures Lasso(g, cycle + [cycle[0]]) && IsStart(g, cycle[0])
  {
    var nodes := cycle + [cycle[0]];
    assert Init(nodes) == cycle;
    var c :| c in Calls(g, Last(cycle)) && Enters(g, c, cycle[0]);
    assert (c.dest, Sync) in g.handlers;
  }

  lemma LassoToCycle(g: Graph, nodes: seq<Node>) returns (cycle: seq<Node>)
    requires Lasso(g, nodes)
    ensures SyncCycle(g, cycle) && |cycle| <= DEPTH
  {
    var front := Init(nodes);
    var i :| 0 <= i < |front| && front[i] == Last(nodes);
    cycle := front[i..];
    forall k | 0 < k < |cycle| ensures SyncStep(g, cycle[k - 1], cycle[k]) {
      assert SyncStep(g, nodes[i + k - 1], nodes[i + k]);
    }
    assert SyncStep(g, nodes[|nodes| - 2], nodes[|nodes| - 1]);
  }

  /** There is something to report exactly when there is an elementary cycle within the bound. */
  lemma FindingsMeanCycles(g: Graph, area: Areas, reported: set<set<Name>>)
    requires forall a :: a in reported <==> Reportable(g, area, a)
    ensures reported != {} <==> exists cycle :: SyncCycle(g, cycle) && |cycle| <= DEPTH
  {
    if a :| a in reported {
      var nodes :| Lasso(g, nodes) && IsStart(g, nodes[0]) && a == AreasOf(area, nodes);
      var cycle := LassoToCycle(g, nodes);
    }
    if cycle :| SyncCycle(g, cycle) && |cycle| <= DEPTH {
      CycleToLasso(g, cycle);
      var nodes := cycle + [cycle[0]];
      assert nodes[0] == cycle[0];
      assert AreasOf(area, nodes) in reported;
    }
  }
}
