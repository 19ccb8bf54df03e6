/**
 * How the reports of two runs of the analysis compare.
 *
 * With and without suppressions on the same graph: the findings under suppressions are exactly the others that the
 * suppressions keep. On two graphs of which one has more calls, as a less precise knowledge of the C++ code gives
 * them: whatever is found in the smaller graph, edge, thread, self-deadlock or cycle, is found in the larger one,
 * provided that the walks of the larger one are not truncated and, for cycles, that its cap is not reached.
 */
module Refinement {
  import opened Basics
  import opened Graph
  import opened Threads
  import opened LockOrder
  import opened LockGraph
  import opened Exactness
  import opened Cycles
  import opened Analyzer
  import Topologies

  // ---------------------------------------------------------------------------------------------
  // Suppressions
  // ---------------------------------------------------------------------------------------------

  /** No edge of the cycle is suppressed. */
  ghost predicate Avoids(suppressed: set<Pair>, c: seq<Name>) {
    c != [] && forall k :: 0 <= k < |c| ==> (c[k], NextOn(c, k)) !in suppressed
  }

  lemma RemovingEdges(edges: EdgeMap, suppressed: set<Pair>, c: seq<Name>)
    ensures IsCycle((edges - suppressed).Keys, c) <==> IsCycle(edges.Keys, c) && Avoids(suppressed, c)
    ensures IsCycle((edges - suppressed).Keys, c) ==> CycleEdges(edges - suppressed, c) == CycleEdges(edges, c)
  {
    var kept := edges - suppressed;
    if IsCycle(kept.Keys, c) {
      forall k | 0 <= k < |c| ensures (c[k], NextOn(c, k)) in edges && (c[k], NextOn(c, k)) !in suppressed {
        assert (c[k], NextOn(c, k)) in kept.Keys;
      }
      CycleEdgesAreAll(kept, c, 0);
      CycleEdgesAreAll(edges, c, 0);
      assert forall i :: 0 <= i < |c| ==> CycleEdges(kept, c)[i] == CycleEdges(edges, c)[i];
    }
  }

  /** The hazards under suppressions are exactly those hazards that use no suppressed edge. */
  lemma SuppressedHazards(g: Graph, suppressed: set<Pair>, events: seq<Event>, c: seq<Name>)
    ensures Hazard(EdgesAfter(g, suppressed, events), c)
       <==> Hazard(EdgesAfter(g, {}, events), c) && Avoids(suppressed, c)
  {
    SuppressionCommutes(g, suppressed, events);
    RemovingEdges(EdgesAfter(g, {}, events), suppressed, c);
  }

  /**
   * What a suppression keeps of a report: cycles with no suppressed edge, and mutexes not suppressed with themselves.
   */
  ghost predicate Keeps(suppressed: set<Pair>, f: Finding) {
    if f.kind == Abba then Avoids(suppressed, f.cycle) else Unsuppressed(suppressed)(f)
  }

  lemma SuppressedCycles(g: Graph, suppressed: set<Pair>, depth: int, maxStates: int, maxCycles: int,
                         edges: EdgeMap, findings: seq<Finding>, allEdges: EdgeMap, all: seq<Finding>, c: seq<Name>)
    requires Finished(g, suppressed, depth, maxStates, maxCycles, edges, findings, false)
    requires Finished(g, {}, depth, maxStates, maxCycles, allEdges, all, false)
    ensures HasCycle(findings, c) <==> HasCycle(all, c) && Avoids(suppressed, c)
    ensures HasCycle(findings, c) ==> CycleEdges(edges, c) == CycleEdges(allEdges, c)
  {
    var events := Observed(g, depth, maxStates);
    FindingsAreHazards(g, suppressed, depth, maxStates, maxCycles, edges, findings, false, c);
    FindingsAreHazards(g, {}, depth, maxStates, maxCycles, allEdges, all, false, c);
    SuppressedHazards(g, suppressed, events, c);
    SuppressionCommutes(g, suppressed, events);
    RemovingEdges(allEdges, suppressed, c);
  }

  /**
   * Two runs that differ in their suppressions only: below the cap, and even when walks were truncated, the findings
   * under suppressions are exactly those of the other run that the suppressions keep, edges and threads included.
   */
  lemma SuppressedFindings(g: Graph, suppressed: set<Pair>, depth: int, maxStates: int, maxCycles: int,
                           edges: EdgeMap, findings: seq<Finding>, allEdges: EdgeMap, all: seq<Finding>, f: Finding)
    requires Finished(g, suppressed, depth, maxStates, maxCycles, edges, findings, false)
    requires Finished(g, {}, depth, maxStates, maxCycles, allEdges, all, false)
    ensures f in findings <==> f in all && Keeps(suppressed, f)
  {
    FindingsAreThese(g, suppressed, depth, maxStates, maxCycles, edges, findings, false, f);
    FindingsAreThese(g, {}, depth, maxStates, maxCycles, allEdges, all, false, f);
    SuppressedCycles(g, suppressed, depth, maxStates, maxCycles, edges, findings, allEdges, all, f.cycle);
    SuppressionCommutes(g, suppressed, Observed(g, depth, maxStates));
  }

  // ---------------------------------------------------------------------------------------------
  // Coarser flow maps
  // ---------------------------------------------------------------------------------------------

  /** Same topology; every call one graph knows of, the other knows of too. */
  ghost predicate Included(g: Graph, h: Graph) {
    && g.instances == h.instances && g.ownThread == h.ownThread && g.connected == h.connected
    && g.handlers == h.handlers
    && forall n, c :: c in Calls(g, n) ==> c in Calls(h, n)
  }

  lemma {:induction false} ChainGrows(g: Graph, h: Graph, n0: Node, calls: seq<Call>, n: Node)
    requires Included(g, h) && Chain(g, n0, calls, n)
    ensures Chain(h, n0, calls, n)
    decreases |calls|
  {
    if calls != [] {
      var m :| Chain(g, n0, Init(calls), m) && ThreadStep(g, m, Last(calls), n);
      ChainGrows(g, h, n0, Init(calls), m);
      assert ThreadStep(h, m, Last(calls), n);
    }
  }

  lemma TakenGrows(g: Graph, h: Graph, depth: int, entry: PortKey, holder: Name, acquired: Name)
    requires Included(g, h) && TakenFrom(g, depth, entry, holder, acquired)
    ensures TakenFrom(h, depth, entry, holder, acquired)
  {
    var n0, calls, n, c :| TakesVia(g, depth, entry, n0, calls, n, c, holder, acquired);
    ChainGrows(g, h, n0, calls, n);
    assert TakesVia(h, depth, entry, n0, calls, n, c, holder, acquired);
  }

  lemma RealOriginGrows(g: Graph, h: Graph, t: Name, port: PortKey)
    requires Included(g, h) && Thread(t) in OriginsOf(g, port)
    ensures Thread(t) in OriginsOf(h, port)
  {
    var s :| s in Seeds(g) && SeedReaches(g, s, port) && s.origin == Thread(t);
    ReachGrows(g, h, s, port);
    assert s.origin in Reaching(h, port);
  }

  lemma ReachGrows(g: Graph, h: Graph, s: Seed, port: PortKey)
    requires Included(g, h) && SeedReaches(g, s, port)
    ensures s in Seeds(h) && SeedReaches(h, s, port)
  {
    if s.port != port {
      var n0, calls, n, c :| InvokesVia(g, s.port, s.kind, n0, calls, n, c) && c.dest == port;
      ChainGrows(g, h, n0, calls, n);
      assert InvokesVia(h, s.port, s.kind, n0, calls, n, c);
    }
  }

  lemma EdgeGrows(g: Graph, h: Graph, suppressed: set<Pair>, depth: int, maxStates: int, pair: Pair)
    requires Included(g, h) && !Build(h, depth, maxStates).truncated
    requires pair in EdgesAfter(g, suppressed, Observed(g, depth, maxStates))
    ensures var before, after := EdgesAfter(g, suppressed, Observed(g, depth, maxStates)),
                                 EdgesAfter(h, suppressed, Observed(h, depth, maxStates));
      pair in after && RealThreads(before[pair]) <= RealThreads(after[pair])
  {
    EdgesSummarise(g, suppressed, Observed(g, depth, maxStates), pair.0, pair.1);
    LockGraphIsExactWithin(g, suppressed, depth, maxStates, pair.0, pair.1);
    LockGraphIsExactWithin(h, suppressed, depth, maxStates, pair.0, pair.1);
    var entry :| TakenFrom(g, depth, entry, pair.0, pair.1);
    TakenGrows(g, h, depth, entry, pair.0, pair.1);
    var before, after := EdgesAfter(g, suppressed, Observed(g, depth, maxStates)),
                         EdgesAfter(h, suppressed, Observed(h, depth, maxStates));
    forall o | o in RealThreads(before[pair]) ensures o in RealThreads(after[pair]) {
      DriverGrows(g, h, suppressed, depth, maxStates, pair, o);
    }
  }

  lemma DriverGrows(g: Graph, h: Graph, suppressed: set<Pair>, depth: int, maxStates: int, pair: Pair, o: Origin)
    requires Included(g, h) && !Build(h, depth, maxStates).truncated && o.Thread?
    requires pair in EdgesAfter(g, suppressed, Observed(g, depth, maxStates))
    requires pair in EdgesAfter(h, suppressed, Observed(h, depth, maxStates))
    requires o in EdgesAfter(g, suppressed, Observed(g, depth, maxStates))[pair].threads
    ensures o in EdgesAfter(h, suppressed, Observed(h, depth, maxStates))[pair].threads
  {
    EdgeThreadsAreExactWithin(g, suppressed, depth, maxStates, pair, o);
    EdgeThreadsAreExactWithin(h, suppressed, depth, maxStates, pair, o);
    var entry :| TakenFrom(g, depth, entry, pair.0, pair.1) && o in OriginsOf(g, entry);
    TakenGrows(g, h, depth, entry, pair.0, pair.1);
    RealOriginGrows(g, h, o.instance, entry);
  }

  lemma ConflictGrows(es: seq<LockEdge>, fs: seq<LockEdge>)
    requires |es| == |fs| && forall i :: 0 <= i < |es| ==> RealThreads(es[i]) <= RealThreads(fs[i])
    requires DistinctPossible(es)
    ensures DistinctPossible(fs)
  {
    var i, j :| 0 <= i < j < |es| && Conflict(es[i], es[j]);
    var t1, t2 :| t1 in RealThreads(es[i]) && t2 in RealThreads(es[j]) && t1 != t2;
    assert Conflict(fs[i], fs[j]);
  }

  ghost predicate MoreEdges(before: EdgeMap, after: EdgeMap) {
    forall pair :: pair in before ==> pair in after && RealThreads(before[pair]) <= RealThreads(after[pair])
  }

  lemma CycleGrows(before: EdgeMap, after: EdgeMap, c: seq<Name>)
    requires MoreEdges(before, after) && IsCycle(before.Keys, c)
    ensures IsCycle(after.Keys, c)
    ensures DistinctPossible(CycleEdges(before, c)) ==> DistinctPossible(CycleEdges(after, c))
  {
    forall k | 0 <= k < |c|
      ensures (c[k], NextOn(c, k)) in after.Keys
      ensures RealThreads(before[(c[k], NextOn(c, k))]) <= RealThreads(after[(c[k], NextOn(c, k))])
    {
      assert (c[k], NextOn(c, k)) in before.Keys;
    }
    CycleEdgesAreAll(before, c, 0);
    CycleEdgesAreAll(after, c, 0);
    if DistinctPossible(CycleEdges(before, c)) {
      ConflictGrows(CycleEdges(before, c), CycleEdges(after, c));
    }
  }

  /**
   * Monotone in the flow map: what the analysis finds on a precise graph, it finds on every coarser one, provided
   * the walks of the coarser one are not truncated.
   */
  lemma CoarserFindsMore(g: Graph, h: Graph, suppressed: set<Pair>, depth: int, maxStates: int)
    requires Included(g, h) && !Build(h, depth, maxStates).truncated
    ensures var before, after := EdgesAfter(g, suppressed, Observed(g, depth, maxStates)),
                                 EdgesAfter(h, suppressed, Observed(h, depth, maxStates));
      MoreEdges(before, after) && forall c :: Hazard(before, c) ==> Hazard(after, c)
    ensures forall x :: Reports(SelfAfter(g, suppressed, Observed(g, depth, maxStates)), x)
                    ==> Reports(SelfAfter(h, suppressed, Observed(h, depth, maxStates)), x)
  {
    var before, after := EdgesAfter(g, suppressed, Observed(g, depth, maxStates)),
                         EdgesAfter(h, suppressed, Observed(h, depth, maxStates));
    forall pair | pair in before ensures pair in after && RealThreads(before[pair]) <= RealThreads(after[pair]) {
      EdgeGrows(g, h, suppressed, depth, maxStates, pair);
    }
    forall c | Hazard(before, c) ensures Hazard(after, c) {
      CycleGrows(before, after, c);
    }
    forall x | Reports(SelfAfter(g, suppressed, Observed(g, depth, maxStates)), x)
      ensures Reports(SelfAfter(h, suppressed, Observed(h, depth, maxStates)), x)
    {
      SelfDeadlocksAreExactWithin(g, suppressed, depth, maxStates, x);
      SelfDeadlocksAreExactWithin(h, suppressed, depth, maxStates, x);
      var entry :| TakenFrom(g, depth, entry, x, x);
      TakenGrows(g, h, depth, entry, x, x);
    }
  }

  /** Every cycle and every self-deadlock reported by one run is reported by the other. */
  ghost predicate ReportsMore(before: seq<Finding>, after: seq<Finding>) {
    (forall c :: HasCycle(before, c) ==> HasCycle(after, c)) && (forall x :: Reports(before, x) ==> Reports(after, x))
  }

  /** The same about the findings of two finished runs: the coarser one reports whatever the precise one does. */
  lemma CoarserReportsMore(g: Graph, h: Graph, suppressed: set<Pair>, depth: int, maxStates: int, maxCycles: int,
                           edges: EdgeMap, findings: seq<Finding>, capped: bool, edges': EdgeMap,
                           findings': seq<Finding>)
    requires Included(g, h) && !Build(h, depth, maxStates).truncated
    requires Finished(g, suppressed, depth, maxStates, maxCycles, edges, findings, capped)
    requires Finished(h, suppressed, depth, maxStates, maxCycles, edges', findings', false)
    ensures MoreEdges(edges, edges') && ReportsMore(findings, findings')
  {
    CoarserFindsMore(g, h, suppressed, depth, maxStates);
    forall c | HasCycle(findings, c) ensures HasCycle(findings', c) {
      FindingsAreHazards(g, suppressed, depth, maxStates, maxCycles, edges, findings, capped, c);
      FindingsAreHazards(h, suppressed, depth, maxStates, maxCycles, edges', findings', false, c);
    }
    forall x | Reports(findings, x) ensures Reports(findings', x) {
      FindingsAreSelfReports(g, suppressed, depth, maxStates, maxCycles, edges, findings, capped, x);
      FindingsAreSelfReports(h, suppressed, depth, maxStates, maxCycles, edges', findings', false, x);
    }
  }

  /**
   * Permissive resolution loses nothing: what a run reports on precise call flow, a run that assumes unresolved
   * handlers call every output reports too.
   */
  lemma PermissiveFindsMore(t: Topologies.Topology, fm: Topologies.FlowMap, coarse: Topologies.FlowMap,
                            suppressed: set<Pair>, depth: int, maxStates: int, maxCycles: int, edges: EdgeMap,
                            findings: seq<Finding>, capped: bool, edges': EdgeMap, findings': seq<Finding>)
    requires coarse == fm.(strict := false) || coarse == Topologies.FlowMap(map[], false)
    requires !Build(Topologies.Tag(t, coarse), depth, maxStates).truncated
    requires Finished(Topologies.Tag(t, fm), suppressed, depth, maxStates, maxCycles, edges, findings, capped)
    requires Finished(Topologies.Tag(t, coarse), suppressed, depth, maxStates, maxCycles, edges', findings', false)
    ensures MoreEdges(edges, edges') && ReportsMore(findings, findings')
  {
    Topologies.PermissiveIsCoarser(fm);
    Topologies.FinerIsIncluded(t, fm, coarse);
    CoarserReportsMore(Topologies.Tag(t, fm), Topologies.Tag(t, coarse), suppressed, depth, maxStates, maxCycles,
                       edges, findings, capped, edges', findings');
  }
}
