/**
 * Stack depth (checks.py): the longest chain of calls that runs on one thread's stack, found by trying every
 * call from every handler on the way.
 */
module StackDepths {
  import opened Basics
  import opened Graph

  const LIMIT: nat := 24

  // ---------------------------------------------------------------------------------------------
  // The recursion
  // ---------------------------------------------------------------------------------------------

  // Of two chains as long the one found first is kept.
  function Longer(a: seq<PortKey>, b: seq<PortKey>): (r: seq<PortKey>)
    ensures |r| >= |a| && |r| >= |b| && (r == a || (r == b && |a| < |b|))
  {
    if |b| > |a| then b else a
  }

  function Deepest(g: Graph, n: Node, path: seq<PortKey>, seen: set<Node>): seq<PortKey>
    decreases LIMIT + 1 - |path|, 0
  {
    if n in seen || |path| > LIMIT then path else DeepestCall(g, Calls(g, n), path, seen + {n}, path)
  }

  function DeepestCall(g: Graph, calls: seq<Call>, path: seq<PortKey>, seen: set<Node>,
      best: seq<PortKey>): seq<PortKey>
    requires |path| <= LIMIT
    decreases LIMIT - |path|, 2, |calls|
  {
    if calls == [] then best
    else
      var c, rest := calls[0], calls[1..];
      var best' :=
        if c.kind == Async then best
        else DeepestEntry(g, Entries(g, c.dest, c.kind), path + [c.dest], seen, best);
      DeepestCall(g, rest, path, seen, best')
  }

  function DeepestEntry(g: Graph, nodes: seq<Node>, path: seq<PortKey>, seen: set<Node>,
      best: seq<PortKey>): seq<PortKey>
    requires |path| <= LIMIT + 1
    decreases LIMIT + 1 - |path|, 1, |nodes|
  {
    if nodes == [] then best
    else DeepestEntry(g, nodes[1..], path, seen, Longer(best, Deepest(g, nodes[0], path, seen)))
  }

  // ---------------------------------------------------------------------------------------------
  // What it looks for
  // ---------------------------------------------------------------------------------------------

  function Ports(calls: seq<Call>): (r: seq<PortKey>)
    ensures |r| == |calls|
  {
    if calls == [] then [] else [calls[0].dest] + Ports(calls[1..])
  }

  /**
   * Calls on one thread, through handlers none of which calls twice or has been seen calling before; only the
   * last handler may be one of those. The whole path is cut one step beyond the limit.
   */
  ghost predicate Dives(g: Graph, n: Node, seen: set<Node>, base: nat, calls: seq<Call>, nodes: seq<Node>) {
    && |nodes| == |calls| + 1 && nodes[0] == n
    && (forall i :: 0 <= i < |calls| ==> ThreadStep(g, nodes[i], calls[i], nodes[i + 1]))
    && NoDup(Init(nodes)) && (forall m :: m in Init(nodes) ==> m !in seen)
    && (calls == [] || base + |calls| <= 25)
  }

  /** The path is one that some dive leads to. */
  ghost predicate Ends(g: Graph, n: Node, path: seq<PortKey>, seen: set<Node>, r: seq<PortKey>) {
    exists calls, nodes :: Dives(g, n, seen, |path|, calls, nodes) && r == path + Ports(calls)
  }

  lemma DiveOn(g: Graph, n: Node, seen: set<Node>, base: nat, c: Call, calls: seq<Call>, nodes: seq<Node>)
    requires n !in seen && base <= LIMIT && nodes != [] && ThreadStep(g, n, c, nodes[0])
    requires Dives(g, nodes[0], seen + {n}, base + 1, calls, nodes)
    ensures Dives(g, n, seen, base, [c] + calls, [n] + nodes)
  {
    var longer, more := [c] + calls, [n] + nodes;
    forall i | 0 <= i < |longer| ensures ThreadStep(g, more[i], longer[i], more[i + 1]) {
      assert i > 0 ==> longer[i] == calls[i - 1];
    }
    assert Init(more) == [n] + Init(nodes);
    assert n !in Init(nodes);
  }

  lemma DiveFrom(g: Graph, n: Node, seen: set<Node>, base: nat, calls: seq<Call>, nodes: seq<Node>)
    requires Dives(g, n, seen, base, calls, nodes) && calls != []
    ensures n !in seen && base <= LIMIT && ThreadStep(g, n, calls[0], nodes[1])
    ensures Dives(g, nodes[1], seen + {n}, base + 1, calls[1..], nodes[1..])
  {
    var front := Init(nodes);
    assert front[0] == n && n in front;
    forall i | 0 <= i < |calls| - 1 ensures ThreadStep(g, nodes[1..][i], calls[1..][i], nodes[1..][i + 1]) {
      assert ThreadStep(g, nodes[i + 1], calls[i + 1], nodes[i + 2]);
    }
    assert Init(nodes[1..]) == front[1..];
    forall m | m in front[1..] ensures m !in seen + {n} {
      var i :| 0 <= i < |front| - 1 && front[1..][i] == m;
      assert front[i + 1] == m && m in front;
    }
  }

  // ---------------------------------------------------------------------------------------------
  // It finds it
  // ---------------------------------------------------------------------------------------------

  /** A path through some handler entered next is a path from here. */
  lemma EndsOn(g: Graph, n: Node, path: seq<PortKey>, seen: set<Node>, c: Call, m: Node, r: seq<PortKey>)
    requires n !in seen && |path| <= LIMIT && ThreadStep(g, n, c, m) && Ends(g, m, path + [c.dest], seen + {n}, r)
    ensures Ends(g, n, path, seen, r)
  {
    var calls, nodes :| Dives(g, m, seen + {n}, |path| + 1, calls, nodes) && r == (path + [c.dest]) + Ports(calls);
    DiveOn(g, n, seen, |path|, c, calls, nodes);
    assert ([c] + calls)[1..] == calls;
    assert Ports([c] + calls) == [c.dest] + Ports(calls);
    Regroup(path, [c.dest], Ports(calls));
  }

  lemma {:induction false} DeepestIsADive(g: Graph, n: Node, path: seq<PortKey>, seen: set<Node>)
    ensures Ends(g, n, path, seen, Deepest(g, n, path, seen))
    decreases LIMIT + 1 - |path|, 0
  {
    assert Ends(g, n, path, seen, path) by {
      assert Dives(g, n, seen, |path|, [], [n]) && path == path + Ports([]);
    }
    if n !in seen && |path| <= LIMIT {
      CallsAreDives(g, n, Calls(g, n), path, seen, path);
    }
  }

  lemma {:induction false} CallsAreDives(g: Graph, n: Node, calls: seq<Call>, path: seq<PortKey>,
      seen: set<Node>, best: seq<PortKey>)
    requires n !in seen && |path| <= LIMIT && Ends(g, n, path, seen, best)
    requires forall c :: c in calls ==> c in Calls(g, n)
    ensures Ends(g, n, path, seen, DeepestCall(g, calls, path, seen + {n}, best))
    decreases LIMIT - |path|, 2, |calls|
  {
    if calls != [] {
      var c := calls[0];
      if c.kind != Async {
        EntriesAreDives(g, n, c, Entries(g, c.dest, c.kind), path, seen, best);
      }
      var best' :=
        if c.kind == Async then best
        else DeepestEntry(g, Entries(g, c.dest, c.kind), path + [c.dest], seen + {n}, best);
      CallsAreDives(g, n, calls[1..], path, seen, best');
    }
  }

  lemma {:induction false} EntriesAreDives(g: Graph, n: Node, c: Call, nodes: seq<Node>, path: seq<PortKey>,
      seen: set<Node>, best: seq<PortKey>)
    requires n !in seen && |path| <= LIMIT && Ends(g, n, path, seen, best)
    requires forall m :: m in nodes ==> ThreadStep(g, n, c, m)
    ensures Ends(g, n, path, seen, DeepestEntry(g, nodes, path + [c.dest], seen + {n}, best))
    decreases LIMIT - |path|, 1, |nodes|
  {
    if nodes != [] {
      var found := Deepest(g, nodes[0], path + [c.dest], seen + {n});
      DeepestIsADive(g, nodes[0], path + [c.dest], seen + {n});
      EndsOn(g, n, path, seen, c, nodes[0], found);
      EntriesAreDives(g, n, c, nodes[1..], path, seen, Longer(best, found));
    }
  }

  lemma {:induction false} BestGrows(g: Graph, calls: seq<Call>, path: seq<PortKey>, seen: set<Node>,
      best: seq<PortKey>, c: Call, m: Node)
    requires |path| <= LIMIT
    ensures |best| <= |DeepestCall(g, calls, path, seen, best)|
    ensures c in calls && c.kind != Async && m in Entries(g, c.dest, c.kind) ==>
              |Deepest(g, m, path + [c.dest], seen)| <= |DeepestCall(g, calls, path, seen, best)|
    decreases |calls|
  {
    if calls != [] {
      var d := calls[0];
      var best' :=
        if d.kind == Async then best
        else DeepestEntry(g, Entries(g, d.dest, d.kind), path + [d.dest], seen, best);
      if d.kind != Async {
        EntryGrows(g, Entries(g, d.dest, d.kind), path + [d.dest], seen, best, m);
      }
      BestGrows(g, calls[1..], path, seen, best', c, m);
    }
  }

  lemma {:induction false} EntryGrows(g: Graph, nodes: seq<Node>, path: seq<PortKey>, seen: set<Node>,
      best: seq<PortKey>, m: Node)
    requires |path| <= LIMIT + 1
    ensures |best| <= |DeepestEntry(g, nodes, path, seen, best)|
    ensures m in nodes ==> |Deepest(g, m, path, seen)| <= |DeepestEntry(g, nodes, path, seen, best)|
    decreases |nodes|
  {
    if nodes != [] {
      EntryGrows(g, nodes[1..], path, seen, Longer(best, Deepest(g, nodes[0], path, seen)), m);
    }
  }

  lemma {:induction false} NoDiveIsDeeper(g: Graph, n: Node, path: seq<PortKey>, seen: set<Node>,
      calls: seq<Call>, nodes: seq<Node>)
    requires Dives(g, n, seen, |path|, calls, nodes)
    ensures |path| + |calls| <= |Deepest(g, n, path, seen)|
    decreases |calls|
  {
    if calls == [] {
      if n !in seen && |path| <= LIMIT {
        BestGrows(g, Calls(g, n), path, seen + {n}, path, Call(PortKey(0, 0), PortKey(0, 0), Async), n);
      }
    } else {
      DiveFrom(g, n, seen, |path|, calls, nodes);
      var c := calls[0];
      NoDiveIsDeeper(g, nodes[1], path + [c.dest], seen + {n}, calls[1..], nodes[1..]);
      BestGrows(g, Calls(g, n), path, seen + {n}, path, c, nodes[1]);
    }
  }

  /** The chain found is a chain of calls on the thread, and none is longer. */
  lemma DeepestIsLongest(g: Graph, n: Node, port: PortKey)
    ensures var r := Deepest(g, n, [port], {});
      && (exists calls, nodes :: Dives(g, n, {}, 1, calls, nodes) && r == [port] + Ports(calls))
      && (forall calls, nodes :: Dives(g, n, {}, 1, calls, nodes) ==> 1 + |calls| <= |r|)
  {
    DeepestIsADive(g, n, [port], {});
    forall calls, nodes | Dives(g, n, {}, 1, calls, nodes) ensures 1 + |calls| <= |Deepest(g, n, [port], {})| {
      NoDiveIsDeeper(g, n, [port], {}, calls, nodes);
    }
  }
}
