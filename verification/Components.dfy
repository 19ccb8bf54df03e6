/**
 * Strongly connected components of the lock-order graph (guarded_port_analyzer.py): Tarjan's algorithm with
 * an explicit work stack.
 */
module Components {
  import opened Basics

  type Adjacency = map<Name, seq<Name>>

  ghost predicate Closed(adj: Adjacency) {
    forall a, b :: a in adj && b in adj[a] ==> b in adj
  }

  ghost predicate Edge(adj: Adjacency, a: Name, b: Name) {
    a in adj && b in adj[a]
  }

  ghost predicate ReachesIn(adj: Adjacency, k: nat, a: Name, b: Name) {
    if k == 0 then a == b else exists m :: ReachesIn(adj, k - 1, a, m) && Edge(adj, m, b)
  }

  ghost predicate Reaches(adj: Adjacency, a: Name, b: Name) {
    exists k: nat :: ReachesIn(adj, k, a, b)
  }

  lemma ReachesItself(adj: Adjacency, a: Name)
    ensures Reaches(adj, a, a)
  {
    assert ReachesIn(adj, 0, a, a);
  }

  lemma ReachesEdge(adj: Adjacency, a: Name, b: Name, c: Name)
    requires Reaches(adj, a, b) && Edge(adj, b, c)
    ensures Reaches(adj, a, c)
  {
    var k: nat :| ReachesIn(adj, k, a, b);
    assert ReachesIn(adj, k + 1, a, c);
  }

  lemma {:induction false} ReachesTrans(adj: Adjacency, a: Name, b: Name, c: Name)
    requires Reaches(adj, a, b) && Reaches(adj, b, c)
    ensures Reaches(adj, a, c)
  {
    var k: nat :| ReachesIn(adj, k, b, c);
    ReachesTransIn(adj, a, b, k, c);
  }

  lemma {:induction false} ReachesTransIn(adj: Adjacency, a: Name, b: Name, k: nat, c: Name)
    requires Reaches(adj, a, b) && ReachesIn(adj, k, b, c)
    ensures Reaches(adj, a, c)
  {
    if k > 0 {
      var m :| ReachesIn(adj, k - 1, b, m) && Edge(adj, m, c);
      ReachesTransIn(adj, a, b, k - 1, m);
      ReachesEdge(adj, a, m, c);
    }
  }

  lemma {:induction false} ReachesStaysInside(adj: Adjacency, inside: set<Name>, k: nat, a: Name, b: Name)
    requires a in inside && ReachesIn(adj, k, a, b)
    requires forall x, y :: x in inside && Edge(adj, x, y) ==> y in inside
    ensures b in inside
  {
    if k > 0 {
      var m :| ReachesIn(adj, k - 1, a, m) && Edge(adj, m, b);
      ReachesStaysInside(adj, inside, k - 1, a, m);
    }
  }

  // ---------------------------------------------------------------------------------------------
  // What the components promise
  // ---------------------------------------------------------------------------------------------

  ghost predicate InSome(result: seq<seq<Name>>, upto: nat, v: Name) {
    exists i :: 0 <= i < upto && i < |result| && v in result[i]
  }

  /**
   * Distinct, internally connected groups; no call leads from a group to one emitted later, so they come out in
   * reverse topological order.
   */
  ghost predicate Emitted(adj: Adjacency, result: seq<seq<Name>>) {
    && (forall i :: 0 <= i < |result| ==> result[i] != [] && NoDup(result[i]))
    && (forall i, j, v :: 0 <= i < j < |result| && v in result[i] ==> v !in result[j])
    && (forall i, v, w :: 0 <= i < |result| && v in result[i] && Edge(adj, v, w) ==> InSome(result, i + 1, w))
    && (forall i, u, v {:trigger result[i], Reaches(adj, u, v)} ::
          0 <= i < |result| && u in result[i] && v in result[i] ==> Reaches(adj, u, v))
  }

  ghost predicate AreComponents(adj: Adjacency, result: seq<seq<Name>>) {
    && Emitted(adj, result)
    && (forall v :: v in adj <==> InSome(result, |result|, v))
  }

  lemma ReachesEarlierGroup(adj: Adjacency, result: seq<seq<Name>>, i: nat, u: Name, v: Name)
    requires Emitted(adj, result) && i < |result| && u in result[i] && Reaches(adj, u, v)
    ensures InSome(result, i + 1, v)
  {
    var k: nat :| ReachesIn(adj, k, u, v);
    var inside := set j, x | 0 <= j < i + 1 && x in result[j] :: x;
    forall x, y | x in inside && Edge(adj, x, y) ensures y in inside {
      var j :| 0 <= j < i + 1 && x in result[j];
      assert InSome(result, j + 1, y);
    }
    ReachesStaysInside(adj, inside, k, u, v);
    var j :| 0 <= j < i + 1 && v in result[j];
  }

  /** Two nodes are in the same group exactly when each reaches the other. */
  lemma ComponentsAreMaximal(adj: Adjacency, result: seq<seq<Name>>, i: nat, u: Name, v: Name)
    requires AreComponents(adj, result) && i < |result| && u in result[i]
    ensures v in result[i] <==> Reaches(adj, u, v) && Reaches(adj, v, u)
  {
    if Reaches(adj, u, v) && Reaches(adj, v, u) {
      ReachesEarlierGroup(adj, result, i, u, v);
      var j :| 0 <= j < i + 1 && v in result[j];
      ReachesEarlierGroup(adj, result, j, v, u);
      var k :| 0 <= k < j + 1 && u in result[k];
      assert k == i;
    }
  }

  // ---------------------------------------------------------------------------------------------
  // The search, abstractly
  // ---------------------------------------------------------------------------------------------

  // Numbers and low links of the nodes met so far, how many children of each have been looked at, the nodes
  // waiting for their group, and those still being explored.
  datatype Search = Search(
    count: nat,
    num: map<Name, nat>,
    low: map<Name, nat>,
    scanned: map<Name, nat>,
    waiting: set<Name>,
    open: set<Name>,
    result: seq<seq<Name>>)

  function At(m: map<Name, nat>, v: Name): nat {
    if v in m then m[v] else 0
  }

  ghost predicate Domains(adj: Adjacency, s: Search) {
    && s.num.Keys == s.low.Keys && s.num.Keys == s.scanned.Keys && s.num.Keys <= adj.Keys
    && s.waiting <= s.num.Keys && s.open <= s.waiting
  }

  ghost predicate Numbered(s: Search) {
    && (forall v :: v in s.num ==> s.num[v] < s.count)
    && (forall u, v :: u in s.num && v in s.num && s.num[u] == s.num[v] ==> u == v)
  }

  ghost predicate Scanned(adj: Adjacency, s: Search) {
    && (forall v :: v in s.num ==> At(s.scanned, v) <= |Children(adj, v)|)
    && (forall v :: v in s.num && v !in s.open ==> At(s.scanned, v) == |Children(adj, v)|)
    && (forall v, k :: v in s.num && 0 <= k < |Children(adj, v)| && k < At(s.scanned, v) ==>
        Children(adj, v)[k] in s.num)
  }

  ghost predicate Grouped(s: Search) {
    forall v :: InSome(s.result, |s.result|, v) <==> v in s.num && v !in s.waiting
  }

  function Children(adj: Adjacency, v: Name): seq<Name> {
    if v in adj then adj[v] else []
  }

  ghost predicate ReachesOpenBelow(adj: Adjacency, s: Search, x: Name) {
    exists g :: g in s.open && At(s.num, g) <= At(s.num, x) && Reaches(adj, x, g)
  }

  /** A waiting node reaches an open node numbered no higher, and is reached by every such open node. */
  ghost predicate Linked(adj: Adjacency, s: Search) {
    && (forall x {:trigger ReachesOpenBelow(adj, s, x)} :: x in s.waiting ==> ReachesOpenBelow(adj, s, x))
    && (forall g, x {:trigger Reaches(adj, g, x)} ::
          g in s.open && x in s.waiting && At(s.num, g) <= At(s.num, x) ==> Reaches(adj, g, x))
  }

  /** g is the highest numbered open node not above x. */
  ghost predicate Head(s: Search, g: Name, x: Name) {
    && g in s.open && At(s.num, g) <= At(s.num, x)
    && forall h :: h in s.open && At(s.num, h) <= At(s.num, x) ==> At(s.num, h) <= At(s.num, g)
  }

  ghost predicate LowWitness(adj: Adjacency, s: Search, g: Name) {
    At(s.low, g) <= At(s.num, g) && exists w :: w in s.waiting && At(s.num, w) == At(s.low, g) && Reaches(adj, g, w)
  }

  ghost predicate LooksAt(adj: Adjacency, s: Search, x: Name, y: Name) {
    x in s.waiting && y in s.waiting && exists k ::
      0 <= k < |Children(adj, x)| && k < At(s.scanned, x) && Children(adj, x)[k] == y
  }

  /** A low link names a waiting node its owner reaches, and no call looked at from above the owner goes lower. */
  ghost predicate LowLinks(adj: Adjacency, s: Search) {
    && (forall g {:trigger LowWitness(adj, s, g)} :: g in s.open ==> LowWitness(adj, s, g))
    && (forall g, x, y {:trigger Head(s, g, x), LooksAt(adj, s, x, y)} ::
          Head(s, g, x) && LooksAt(adj, s, x, y) ==> At(s.low, g) <= At(s.num, y))
  }

  ghost predicate Inv(adj: Adjacency, s: Search) {
    && Closed(adj) && Domains(adj, s) && Numbered(s) && Scanned(adj, s) && Grouped(s)
    && Linked(adj, s) && LowLinks(adj, s) && Emitted(adj, s.result)
  }

  /** The node whose children are being looked at. */
  ghost predicate Top(s: Search, top: Name) {
    top in s.open && forall h :: h in s.open ==> At(s.num, h) <= At(s.num, top)
  }

  // ---------------------------------------------------------------------------------------------
  // Entering a node: a root, or the next child of the top node
  // ---------------------------------------------------------------------------------------------

  ghost function Enter(s: Search, v: Name): Search {
    Search(s.count + 1, s.num[v := s.count], s.low[v := s.count], s.scanned[v := 0], s.waiting + {v}, s.open + {v},
           s.result)
  }

  ghost predicate CanEnter(adj: Adjacency, s: Search, top: Option<Name>, v: Name) {
    && v in adj && v !in s.num
    && match top
       case None => s.open == {}
       case Some(u) => Top(s, u) && Edge(adj, u, v)
  }

  lemma EnterKeepsNumbers(adj: Adjacency, s: Search, v: Name)
    requires Domains(adj, s) && Numbered(s) && v in adj && v !in s.num
    ensures Domains(adj, Enter(s, v)) && Numbered(Enter(s, v))
  {
    assert Enter(s, v).num.Keys == s.num.Keys + {v};
  }

  lemma EnterKeepsScanned(adj: Adjacency, s: Search, v: Name)
    requires Domains(adj, s) && Scanned(adj, s) && Grouped(s) && v in adj && v !in s.num
    ensures Scanned(adj, Enter(s, v)) && Grouped(Enter(s, v))
  {
  }

  lemma EnterReachesBelow(adj: Adjacency, s: Search, v: Name, x: Name)
    requires Domains(adj, s) && Linked(adj, s) && v !in s.num && x in Enter(s, v).waiting
    ensures ReachesOpenBelow(adj, Enter(s, v), x)
  {
    var t := Enter(s, v);
    if x == v {
      ReachesItself(adj, v);
      assert v in t.open;
    } else {
      assert ReachesOpenBelow(adj, s, x);
      var g :| g in s.open && At(s.num, g) <= At(s.num, x) && Reaches(adj, x, g);
      assert g in t.open;
    }
  }

  lemma EnterKeepsLinks(adj: Adjacency, s: Search, top: Option<Name>, v: Name)
    requires Domains(adj, s) && Numbered(s) && Linked(adj, s) && CanEnter(adj, s, top, v)
    ensures Linked(adj, Enter(s, v))
  {
    var t := Enter(s, v);
    forall x | x in t.waiting ensures ReachesOpenBelow(adj, t, x) {
      EnterReachesBelow(adj, s, v, x);
    }
    ReachesItself(adj, v);
    forall g, x | g in t.open && x in t.waiting && At(t.num, g) <= At(t.num, x) ensures Reaches(adj, g, x) {
      if x == v && g != v {
        assert Reaches(adj, g, top.value);
        ReachesEdge(adj, g, top.value, v);
      }
    }
  }

  lemma EnterWitness(adj: Adjacency, s: Search, v: Name, g: Name)
    requires Domains(adj, s) && LowLinks(adj, s) && v !in s.num && g in Enter(s, v).open
    ensures LowWitness(adj, Enter(s, v), g)
  {
    var t := Enter(s, v);
    if g == v {
      ReachesItself(adj, v);
      assert v in t.waiting;
    } else {
      assert LowWitness(adj, s, g);
      var w :| w in s.waiting && At(s.num, w) == At(s.low, g) && Reaches(adj, g, w);
      assert w in t.waiting;
    }
  }

  lemma EnterKeepsLowLinks(adj: Adjacency, s: Search, v: Name)
    requires Domains(adj, s) && Numbered(s) && LowLinks(adj, s) && v in adj && v !in s.num
    ensures LowLinks(adj, Enter(s, v))
  {
    var t := Enter(s, v);
    forall g | g in t.open ensures LowWitness(adj, t, g) {
      EnterWitness(adj, s, v, g);
    }
    forall g, x, y | Head(t, g, x) && LooksAt(adj, t, x, y) ensures At(t.low, g) <= At(t.num, y) {
      assert x != v;
      assert Head(s, g, x);
      if y == v {
        assert LowWitness(adj, s, g);
      } else {
        assert LooksAt(adj, s, x, y);
      }
    }
  }

  lemma EnterKeeps(adj: Adjacency, s: Search, top: Option<Name>, v: Name)
    requires Inv(adj, s) && CanEnter(adj, s, top, v)
    ensures Inv(adj, Enter(s, v)) && Top(Enter(s, v), v)
  {
    EnterKeepsNumbers(adj, s, v);
    EnterKeepsScanned(adj, s, v);
    EnterKeepsLinks(adj, s, top, v);
    EnterKeepsLowLinks(adj, s, v);
  }

  // ---------------------------------------------------------------------------------------------
  // Looking at the next child of the top node, when it is numbered already
  // ---------------------------------------------------------------------------------------------

  function Min(a: nat, b: nat): nat { if a <= b then a else b }

  ghost predicate CanScan(adj: Adjacency, s: Search, top: Name, child: Name) {
    && Top(s, top) && child in s.num
    && At(s.scanned, top) < |Children(adj, top)| && Children(adj, top)[At(s.scanned, top)] == child
  }

  ghost function Scan(s: Search, top: Name, child: Name): Search {
    s.(scanned := s.scanned[top := At(s.scanned, top) + 1],
       low := if child in s.waiting then s.low[top := Min(At(s.low, top), At(s.num, child))] else s.low)
  }

  lemma ScanWitness(adj: Adjacency, s: Search, top: Name, child: Name, g: Name)
    requires Domains(adj, s) && LowLinks(adj, s) && CanScan(adj, s, top, child) && g in s.open
    ensures LowWitness(adj, Scan(s, top, child), g)
  {
    var t := Scan(s, top, child);
    assert LowWitness(adj, s, g);
    var w :| w in s.waiting && At(s.num, w) == At(s.low, g) && Reaches(adj, g, w);
    if g == top && child in s.waiting && At(s.num, child) < At(s.low, top) {
      ReachesItself(adj, top);
      ReachesEdge(adj, top, top, child);
      assert child in t.waiting && At(t.num, child) == At(t.low, g);
    } else {
      assert w in t.waiting && At(t.num, w) == At(t.low, g);
    }
  }

  lemma ScanKeepsLowLinks(adj: Adjacency, s: Search, top: Name, child: Name)
    requires Domains(adj, s) && Numbered(s) && LowLinks(adj, s) && CanScan(adj, s, top, child)
    ensures LowLinks(adj, Scan(s, top, child))
  {
    var t := Scan(s, top, child);
    forall g | g in t.open ensures LowWitness(adj, t, g) {
      ScanWitness(adj, s, top, child, g);
    }
    forall g, x, y | Head(t, g, x) && LooksAt(adj, t, x, y) ensures At(t.low, g) <= At(t.num, y) {
      assert Head(s, g, x);
      if !LooksAt(adj, s, x, y) {
        assert x == top && y == child;
        assert g == top;
      }
    }
  }

  lemma ScanKeepsSets(adj: Adjacency, s: Search, top: Name, child: Name)
    requires Domains(adj, s) && Scanned(adj, s) && Grouped(s) && CanScan(adj, s, top, child)
    ensures var t := Scan(s, top, child); Domains(adj, t) && Scanned(adj, t) && Grouped(t)
  {
    var t := Scan(s, top, child);
    assert t.low.Keys == s.low.Keys && t.scanned.Keys == s.scanned.Keys;
    ScanKeepsScanned(adj, s, top, child);
  }

  lemma ScanKeepsScanned(adj: Adjacency, s: Search, top: Name, child: Name)
    requires Domains(adj, s) && Scanned(adj, s) && CanScan(adj, s, top, child)
    ensures Scanned(adj, Scan(s, top, child))
  {
    var t := Scan(s, top, child);
    forall v, k | v in t.num && 0 <= k < |Children(adj, v)| && k < At(t.scanned, v)
      ensures Children(adj, v)[k] in t.num
    {
      if v == top && k == At(s.scanned, top) {
        assert Children(adj, v)[k] == child;
      }
    }
  }

  /** Neither half of the link invariant looks at low links or scan counts. */
  lemma LinksStay(adj: Adjacency, s: Search, t: Search)
    requires Linked(adj, s) && t.num == s.num && t.waiting == s.waiting && t.open == s.open
    ensures Linked(adj, t)
  {
    forall x | x in t.waiting ensures ReachesOpenBelow(adj, t, x) {
      assert ReachesOpenBelow(adj, s, x);
    }
  }

  lemma ScanKeeps(adj: Adjacency, s: Search, top: Name, child: Name)
    requires Inv(adj, s) && CanScan(adj, s, top, child)
    ensures Inv(adj, Scan(s, top, child)) && Top(Scan(s, top, child), top)
  {
    ScanKeepsSets(adj, s, top, child);
    LinksStay(adj, s, Scan(s, top, child));
    ScanKeepsLowLinks(adj, s, top, child);
  }

  // ---------------------------------------------------------------------------------------------
  // Leaving the top node, when its group is not complete yet
  // ---------------------------------------------------------------------------------------------

  ghost predicate Exhausted(adj: Adjacency, s: Search, top: Name) {
    Top(s, top) && At(s.scanned, top) == |Children(adj, top)|
  }

  ghost predicate Second(s: Search, top: Name, parent: Name) {
    parent in s.open && parent != top && forall h :: h in s.open && h != top ==> At(s.num, h) <= At(s.num, parent)
  }

  ghost function Leave(s: Search, top: Name, parent: Name): Search {
    s.(open := s.open - {top}, low := s.low[parent := Min(At(s.low, parent), At(s.low, top))])
  }

  /** A node whose low link is below its own number is not the first open node. */
  lemma LowerNodeIsOpen(adj: Adjacency, s: Search, top: Name)
    returns (w: Name, g: Name)
    requires Inv(adj, s) && Top(s, top) && At(s.low, top) < At(s.num, top)
    ensures w in s.waiting && At(s.num, w) == At(s.low, top) && Reaches(adj, top, w)
    ensures g in s.open && g != top && At(s.num, g) <= At(s.num, w) && Reaches(adj, top, g)
  {
    assert LowWitness(adj, s, top);
    w :| w in s.waiting && At(s.num, w) == At(s.low, top) && Reaches(adj, top, w);
    assert ReachesOpenBelow(adj, s, w);
    g :| g in s.open && At(s.num, g) <= At(s.num, w) && Reaches(adj, w, g);
    ReachesTrans(adj, top, w, g);
  }

  lemma LeaveReachesBelow(adj: Adjacency, s: Search, top: Name, parent: Name, x: Name)
    requires Inv(adj, s) && Top(s, top) && At(s.low, top) < At(s.num, top) && x in s.waiting
    ensures ReachesOpenBelow(adj, Leave(s, top, parent), x)
  {
    var t := Leave(s, top, parent);
    assert ReachesOpenBelow(adj, s, x);
    var g :| g in s.open && At(s.num, g) <= At(s.num, x) && Reaches(adj, x, g);
    if g == top {
      var w, h := LowerNodeIsOpen(adj, s, top);
      ReachesTrans(adj, x, top, h);
      assert h in t.open;
    } else {
      assert g in t.open;
    }
  }

  lemma LeaveWitness(adj: Adjacency, s: Search, top: Name, parent: Name, g: Name)
    requires Inv(adj, s) && Top(s, top) && Second(s, top, parent) && g in s.open && g != top
    requires At(s.low, top) < At(s.num, top)
    ensures LowWitness(adj, Leave(s, top, parent), g)
  {
    var t := Leave(s, top, parent);
    assert LowWitness(adj, s, g);
    var w :| w in s.waiting && At(s.num, w) == At(s.low, g) && Reaches(adj, g, w);
    if g == parent && At(s.low, top) < At(s.low, parent) {
      var u, h := LowerNodeIsOpen(adj, s, top);
      assert Reaches(adj, parent, top);
      ReachesTrans(adj, parent, top, u);
      assert u in t.waiting && At(t.num, u) == At(t.low, g);
    } else {
      assert w in t.waiting && At(t.num, w) == At(t.low, g);
    }
  }

  lemma LeaveHeads(adj: Adjacency, s: Search, top: Name, parent: Name, g: Name, x: Name, y: Name)
    requires Domains(adj, s) && Numbered(s) && LowLinks(adj, s) && Top(s, top) && Second(s, top, parent)
    requires var t := Leave(s, top, parent); Head(t, g, x) && LooksAt(adj, t, x, y)
    ensures At(Leave(s, top, parent).low, g) <= At(s.num, y)
  {
    var t := Leave(s, top, parent);
    assert LooksAt(adj, s, x, y);
    if At(s.num, top) <= At(s.num, x) {
      assert Head(s, top, x);
      assert parent in t.open && At(s.num, parent) <= At(s.num, g);
      assert g == parent;
    } else {
      assert Head(s, g, x);
    }
  }

  lemma LeaveKeepsSets(adj: Adjacency, s: Search, top: Name, parent: Name)
    requires Domains(adj, s) && Scanned(adj, s) && Grouped(s) && Exhausted(adj, s, top) && Second(s, top, parent)
    ensures var t := Leave(s, top, parent); Domains(adj, t) && Scanned(adj, t) && Grouped(t)
  {
    assert Leave(s, top, parent).low.Keys == s.low.Keys;
  }

  lemma LeaveKeepsLinks(adj: Adjacency, s: Search, top: Name, parent: Name)
    requires Inv(adj, s) && Top(s, top) && At(s.low, top) < At(s.num, top)
    ensures Linked(adj, Leave(s, top, parent))
  {
    var t := Leave(s, top, parent);
    forall x | x in t.waiting ensures ReachesOpenBelow(adj, t, x) {
      LeaveReachesBelow(adj, s, top, parent, x);
    }
  }

  lemma LeaveKeepsLowLinks(adj: Adjacency, s: Search, top: Name, parent: Name)
    requires Inv(adj, s) && Top(s, top) && Second(s, top, parent) && At(s.low, top) < At(s.num, top)
    ensures LowLinks(adj, Leave(s, top, parent))
  {
    var t := Leave(s, top, parent);
    forall g | g in t.open ensures LowWitness(adj, t, g) {
      LeaveWitness(adj, s, top, parent, g);
    }
    forall g, x, y | Head(t, g, x) && LooksAt(adj, t, x, y) ensures At(t.low, g) <= At(t.num, y) {
      LeaveHeads(adj, s, top, parent, g, x, y);
    }
  }

  lemma LeaveKeeps(adj: Adjacency, s: Search, top: Name, parent: Name)
    requires Inv(adj, s) && Exhausted(adj, s, top) && Second(s, top, parent) && At(s.low, top) < At(s.num, top)
    ensures Inv(adj, Leave(s, top, parent)) && Top(Leave(s, top, parent), parent)
  {
    LeaveKeepsSets(adj, s, top, parent);
    LeaveKeepsLinks(adj, s, top, parent);
    LeaveKeepsLowLinks(adj, s, top, parent);
  }

  // ---------------------------------------------------------------------------------------------
  // Emitting the group of the top node
  // ---------------------------------------------------------------------------------------------

  ghost predicate Completes(adj: Adjacency, s: Search, top: Name, group: seq<Name>) {
    && Exhausted(adj, s, top) && At(s.low, top) == At(s.num, top)
    && NoDup(group) && (forall v :: v in group <==> v in s.waiting && At(s.num, top) <= At(s.num, v))
  }

  ghost function Emit(s: Search, top: Name, group: seq<Name>): Search {
    s.(waiting := s.waiting - ToSet(group), open := s.open - {top}, result := s.result + [group])
  }

  lemma InSomeMore(result: seq<seq<Name>>, group: seq<Name>, upto: nat, v: Name)
    ensures upto <= |result| ==> (InSome(result + [group], upto, v) <==> InSome(result, upto, v))
    ensures InSome(result + [group], |result| + 1, v) <==> InSome(result, |result|, v) || v in group
  {
    var more := result + [group];
    assert forall i :: 0 <= i < |result| ==> more[i] == result[i];
    assert more[|result|] == group;
    if InSome(result, |result|, v) {
      var i :| 0 <= i < |result| && v in result[i];
      assert more[i] == result[i];
    }
    if InSome(result, upto, v) {
      var i :| 0 <= i < upto && i < |result| && v in result[i];
      assert more[i] == result[i];
    }
  }

  /** No call leaves a complete group except to groups emitted before. */
  lemma GroupIsClosed(adj: Adjacency, s: Search, top: Name, group: seq<Name>, x: Name, y: Name)
    requires Inv(adj, s) && Completes(adj, s, top, group) && x in group && Edge(adj, x, y)
    ensures y in group || InSome(s.result, |s.result|, y)
  {
    assert x == top || x !in s.open;
    var k :| 0 <= k < |adj[x]| && adj[x][k] == y;
    assert Children(adj, x)[k] in s.num;
    if y in s.waiting {
      assert LooksAt(adj, s, x, y);
      assert Head(s, top, x);
    }
  }

  lemma GroupReachesTop(adj: Adjacency, s: Search, top: Name, group: seq<Name>, x: Name)
    requires Inv(adj, s) && Completes(adj, s, top, group) && x in group
    ensures Reaches(adj, x, top)
  {
    assert ReachesOpenBelow(adj, s, x);
    var g :| g in s.open && At(s.num, g) <= At(s.num, x) && Reaches(adj, x, g);
    var k: nat :| ReachesIn(adj, k, x, g);
    var inside := ToSet(group) + (s.num.Keys - s.waiting);
    forall a, b | a in inside && Edge(adj, a, b) ensures b in inside {
      if a in group {
        GroupIsClosed(adj, s, top, group, a, b);
      } else {
        assert InSome(s.result, |s.result|, a);
        var i :| 0 <= i < |s.result| && a in s.result[i];
        assert InSome(s.result, i + 1, b);
        var j :| 0 <= j < i + 1 && j < |s.result| && b in s.result[j];
        assert InSome(s.result, |s.result|, b);
      }
    }
    ReachesStaysInside(adj, inside, k, x, g);
    assert g in group;
    assert g == top;
  }

  lemma EmitIsEmitted(adj: Adjacency, s: Search, top: Name, group: seq<Name>)
    requires Inv(adj, s) && Completes(adj, s, top, group)
    ensures Emitted(adj, s.result + [group])
  {
    var more, n := s.result + [group], |s.result|;
    assert top in group;
    forall i, j, v | 0 <= i < j < |more| && v in more[i] ensures v !in more[j] {
      if j == n {
        assert InSome(s.result, n, v);
      }
    }
    forall i, v, w | 0 <= i < |more| && v in more[i] && Edge(adj, v, w) ensures InSome(more, i + 1, w) {
      InSomeMore(s.result, group, i + 1, w);
      if i == n {
        GroupIsClosed(adj, s, top, group, v, w);
      } else {
        assert InSome(s.result, i + 1, w);
      }
    }
    forall i, u, v | 0 <= i < |more| && u in more[i] && v in more[i] ensures Reaches(adj, u, v) {
      if i == n {
        GroupReachesTop(adj, s, top, group, u);
        assert Reaches(adj, top, v);
        ReachesTrans(adj, u, top, v);
      } else {
        assert u in s.result[i] && v in s.result[i];
      }
    }
  }

  lemma EmitKeepsSets(adj: Adjacency, s: Search, top: Name, group: seq<Name>)
    requires Inv(adj, s) && Completes(adj, s, top, group)
    ensures var t := Emit(s, top, group); Domains(adj, t) && Scanned(adj, t) && Grouped(t)
  {
    var t := Emit(s, top, group);
    forall v ensures InSome(t.result, |t.result|, v) <==> v in t.num && v !in t.waiting {
      InSomeMore(s.result, group, 0, v);
    }
  }

  lemma EmitKeepsLinks(adj: Adjacency, s: Search, top: Name, group: seq<Name>)
    requires Inv(adj, s) && Completes(adj, s, top, group)
    ensures Linked(adj, Emit(s, top, group))
  {
    var t := Emit(s, top, group);
    forall x | x in t.waiting ensures ReachesOpenBelow(adj, t, x) {
      assert ReachesOpenBelow(adj, s, x);
      var g :| g in s.open && At(s.num, g) <= At(s.num, x) && Reaches(adj, x, g);
      assert g in t.open;
    }
  }

  lemma EmitKeepsLowLinks(adj: Adjacency, s: Search, top: Name, group: seq<Name>)
    requires Inv(adj, s) && Completes(adj, s, top, group)
    ensures LowLinks(adj, Emit(s, top, group))
  {
    var t := Emit(s, top, group);
    forall g | g in t.open ensures LowWitness(adj, t, g) {
      assert LowWitness(adj, s, g);
      var w :| w in s.waiting && At(s.num, w) == At(s.low, g) && Reaches(adj, g, w);
      assert g != top;
      assert w in t.waiting;
    }
    forall g, x, y | Head(t, g, x) && LooksAt(adj, t, x, y) ensures At(t.low, g) <= At(t.num, y) {
      assert LooksAt(adj, s, x, y);
      assert At(s.num, x) < At(s.num, top);
      assert Head(s, g, x);
    }
  }

  lemma EmitKeeps(adj: Adjacency, s: Search, top: Name, group: seq<Name>)
    requires Inv(adj, s) && Completes(adj, s, top, group)
    ensures Inv(adj, Emit(s, top, group))
  {
    EmitIsEmitted(adj, s, top, group);
    EmitKeepsSets(adj, s, top, group);
    EmitKeepsLinks(adj, s, top, group);
    EmitKeepsLowLinks(adj, s, top, group);
  }
}
