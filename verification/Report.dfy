/**
 * What a finished analysis reports, stated without it: in terms of the call chains of the topology and of what
 * its threads do at run time.
 *
 * A reported cycle is one whose mutexes can be nested all around, and two of its edges are ones that two different
 * threads are credited with. A thread is credited with an edge that it drives, in some run of the runtime, or that
 * is reached from a port of its own instance which is dispatched both async and guarded. The second kind is what the
 * program adds by labelling the port on which a thread takes its messages as one that the thread calls.
 */
module Report {
  import opened Basics
  import opened Graph
  import opened Threads
  import opened LockOrder
  import opened LockGraph
  import opened Exactness
  import opened Cycles
  import opened Analyzer
  import opened Runtime
  import opened Deadlock
  import opened Driving
  import opened Topologies
  import opened Attribution

  /** The second mutex can be taken while the first is held, and the pair is not suppressed. */
  ghost predicate NestsUnsuppressed(g: Graph, suppressed: set<Pair>, holder: Name, acquired: Name) {
    (holder, acquired) !in suppressed && NestsSomewhere(g, holder, acquired)
  }

  /** A cycle of mutexes, smallest first, each of which can be held while the next one is taken. */
  ghost predicate NestingCycle(g: Graph, suppressed: set<Pair>, c: seq<Name>) {
    && |c| >= 2 && NoDup(c) && (forall k :: 0 < k < |c| ==> c[0] < c[k])
    && forall k :: 0 <= k < |c| ==> NestsUnsuppressed(g, suppressed, c[k], NextOn(c, k))
  }

  /** Some run has the thread own the mutex at position k and wait for the next one, or hang on itself on the way. */
  ghost predicate DrivesAt(g: Graph, c: seq<Name>, k: nat, t: Name)
    requires k < |c|
  {
    Drives(g, t, c[k], NextOn(c, k))
  }

  ghost predicate TwoThreads(g: Graph, c: seq<Name>) {
    exists i, j, t, u :: 0 <= i < j < |c| && t != u && DrivesAt(g, c, i, t) && DrivesAt(g, c, j, u)
  }

  /** The thread drives the edge at position k, or owns a mixed port that leads to it. */
  ghost predicate CreditedAt(g: Graph, c: seq<Name>, k: nat, t: Name)
    requires k < |c|
  {
    DrivesAt(g, c, k, t) || OwnsMixedEntry(g, t, c[k], NextOn(c, k))
  }

  ghost predicate TwoCredited(g: Graph, c: seq<Name>) {
    exists i, j, t, u :: 0 <= i < j < |c| && t != u && CreditedAt(g, c, i, t) && CreditedAt(g, c, j, u)
  }

  /** The owners of mixed ports that lead to an edge of the cycle drive that edge. */
  ghost predicate OwnersDriveAt(g: Graph, c: seq<Name>) {
    forall k, t :: 0 <= k < |c| && CreditedAt(g, c, k, t) ==> DrivesAt(g, c, k, t)
  }

  lemma DriversOrOwners(g: Graph, c: seq<Name>)
    ensures TwoThreads(g, c) ==> TwoCredited(g, c)
    ensures TwoCredited(g, c) && OwnersDriveAt(g, c) ==> TwoThreads(g, c)
  {
    if TwoThreads(g, c) {
      var i, j, t, u :| 0 <= i < j < |c| && t != u && DrivesAt(g, c, i, t) && DrivesAt(g, c, j, u);
      assert CreditedAt(g, c, i, t) && CreditedAt(g, c, j, u);
    }
    if TwoCredited(g, c) && OwnersDriveAt(g, c) {
      var i, j, t, u :| 0 <= i < j < |c| && t != u && CreditedAt(g, c, i, t) && CreditedAt(g, c, j, u);
      assert DrivesAt(g, c, i, t) && DrivesAt(g, c, j, u);
    }
  }

  lemma CycleIsNestingCycle(g: Graph, suppressed: set<Pair>, depth: int, maxStates: int, c: seq<Name>)
    ensures var edges := EdgesAfter(g, suppressed, Observed(g, depth, maxStates));
      && (Canonical(edges.Keys, c) ==> NestingCycle(g, suppressed, c))
      && (Uncut(g, depth, maxStates) && NestingCycle(g, suppressed, c) ==> Canonical(edges.Keys, c))
  {
    var edges := EdgesAfter(g, suppressed, Observed(g, depth, maxStates));
    if |c| >= 2 && NoDup(c) {
      forall k | 0 <= k < |c|
        ensures (c[k], NextOn(c, k)) in edges ==> NestsUnsuppressed(g, suppressed, c[k], NextOn(c, k))
        ensures Uncut(g, depth, maxStates) && NestsUnsuppressed(g, suppressed, c[k], NextOn(c, k))
            ==> (c[k], NextOn(c, k)) in edges
      {
        assert c[k] != NextOn(c, k);
        LockGraphIsExact(g, suppressed, depth, maxStates, c[k], NextOn(c, k));
      }
    }
  }

  lemma EdgeAt(edges: EdgeMap, c: seq<Name>, k: nat)
    requires IsCycle(edges.Keys, c) && k < |c|
    ensures (c[k], NextOn(c, k)) in edges && |CycleEdges(edges, c)| == |c|
    ensures CycleEdges(edges, c)[k] == edges[(c[k], NextOn(c, k))]
  {
    CycleEdgesAreAll(edges, c, 0);
    assert (c[k], NextOn(c, k)) in edges.Keys;
  }

  /** The real threads on a cycle's edge drive it or own a mixed port, and when no walk is cut all that do are there. */
  lemma EdgeThreadsAreCredited(g: Graph, suppressed: set<Pair>, depth: int, maxStates: int, c: seq<Name>, k: nat,
                               t: Name)
    requires CallsEveryKind(g) && k < |c|
    requires IsCycle(EdgesAfter(g, suppressed, Observed(g, depth, maxStates)).Keys, c)
    ensures var es := CycleEdges(EdgesAfter(g, suppressed, Observed(g, depth, maxStates)), c);
      && |es| == |c| && (Thread(t) in RealThreads(es[k]) ==> CreditedAt(g, c, k, t))
      && (Uncut(g, depth, maxStates) && CreditedAt(g, c, k, t) ==> Thread(t) in RealThreads(es[k]))
  {
    var edges := EdgesAfter(g, suppressed, Observed(g, depth, maxStates));
    EdgeAt(edges, c, k);
    EdgeThreadsAreExact(g, suppressed, depth, maxStates, (c[k], NextOn(c, k)), Thread(t));
    CreditedThreads(g, t, c[k], NextOn(c, k));
  }

  /** Each edge has only threads credited with its place on the cycle, and if `all`, every one. */
  ghost predicate Attributed(g: Graph, c: seq<Name>, es: seq<LockEdge>, all: bool) {
    && |es| == |c|
    && (forall k, t :: 0 <= k < |c| && Thread(t) in RealThreads(es[k]) ==> CreditedAt(g, c, k, t))
    && (all ==> forall k, t :: 0 <= k < |c| && CreditedAt(g, c, k, t) ==> Thread(t) in RealThreads(es[k]))
  }

  lemma AttributionDecides(g: Graph, c: seq<Name>, es: seq<LockEdge>, all: bool)
    requires Attributed(g, c, es, all)
    ensures DistinctPossible(es) ==> TwoCredited(g, c)
    ensures all && TwoCredited(g, c) ==> DistinctPossible(es)
  {
    if DistinctPossible(es) {
      var i, j :| 0 <= i < j < |es| && Conflict(es[i], es[j]);
      var o1, o2 :| o1 in RealThreads(es[i]) && o2 in RealThreads(es[j]) && o1 != o2;
      assert o1 == Thread(o1.instance) && o2 == Thread(o2.instance);
      assert CreditedAt(g, c, i, o1.instance) && CreditedAt(g, c, j, o2.instance);
    }
    if all && TwoCredited(g, c) {
      var i, j, t, u :| 0 <= i < j < |c| && t != u && CreditedAt(g, c, i, t) && CreditedAt(g, c, j, u);
      assert Thread(t) in RealThreads(es[i]) && Thread(u) in RealThreads(es[j]);
      assert Conflict(es[i], es[j]);
    }
  }

  lemma EdgesAreAttributed(g: Graph, suppressed: set<Pair>, depth: int, maxStates: int, c: seq<Name>)
    requires CallsEveryKind(g) && IsCycle(EdgesAfter(g, suppressed, Observed(g, depth, maxStates)).Keys, c)
    ensures Attributed(g, c, CycleEdges(EdgesAfter(g, suppressed, Observed(g, depth, maxStates)), c),
        Uncut(g, depth, maxStates))
  {
    var es, all := CycleEdges(EdgesAfter(g, suppressed, Observed(g, depth, maxStates)), c), Uncut(g, depth, maxStates);
    forall k, t | 0 <= k < |c|
      ensures |es| == |c| && (Thread(t) in RealThreads(es[k]) ==> CreditedAt(g, c, k, t))
      ensures all && CreditedAt(g, c, k, t) ==> Thread(t) in RealThreads(es[k])
    {
      EdgeThreadsAreCredited(g, suppressed, depth, maxStates, c, k, t);
    }
    EdgeThreadsAreCredited(g, suppressed, depth, maxStates, c, 0, 0);
  }

  /**
   * Two real threads are found on a cycle's edges exactly if two threads are credited with them, which are drivers
   * unless a mixed port is involved.
   */
  lemma ConflictIsTwoThreads(g: Graph, suppressed: set<Pair>, depth: int, maxStates: int, c: seq<Name>)
    requires CallsEveryKind(g) && IsCycle(EdgesAfter(g, suppressed, Observed(g, depth, maxStates)).Keys, c)
    ensures var es := CycleEdges(EdgesAfter(g, suppressed, Observed(g, depth, maxStates)), c);
      && (DistinctPossible(es) ==> TwoCredited(g, c))
      && (DistinctPossible(es) && OwnersDriveAt(g, c) ==> TwoThreads(g, c))
      && (Uncut(g, depth, maxStates) && (TwoThreads(g, c) || TwoCredited(g, c)) ==> DistinctPossible(es))
  {
    var es := CycleEdges(EdgesAfter(g, suppressed, Observed(g, depth, maxStates)), c);
    EdgesAreAttributed(g, suppressed, depth, maxStates, c);
    AttributionDecides(g, c, es, Uncut(g, depth, maxStates));
    DriversOrOwners(g, c);
  }

  /** The hazards of the lock-order graph are nesting cycles of two threads, and when no walk is cut, all of them. */
  lemma HazardsAreExact(g: Graph, suppressed: set<Pair>, depth: int, maxStates: int, c: seq<Name>)
    requires CallsEveryKind(g)
    ensures var edges := EdgesAfter(g, suppressed, Observed(g, depth, maxStates));
      && (Hazard(edges, c) ==> NestingCycle(g, suppressed, c) && TwoCredited(g, c))
      && (Hazard(edges, c) && OwnersDriveAt(g, c) ==> TwoThreads(g, c))
      && (Uncut(g, depth, maxStates) && NestingCycle(g, suppressed, c) && (TwoThreads(g, c) || TwoCredited(g, c)) ==>
            Hazard(edges, c))
  {
    CycleIsNestingCycle(g, suppressed, depth, maxStates, c);
    if Canonical(EdgesAfter(g, suppressed, Observed(g, depth, maxStates)).Keys, c) {
      ConflictIsTwoThreads(g, suppressed, depth, maxStates, c);
    }
  }

  /**
   * The report is exact: whatever is cut short, the mutexes of a reported cycle can be nested all around, and two
   * threads are credited with two of its edges; where owners of mixed ports drive, two different threads drive them at
   * run time. When nothing is cut short, every such cycle is reported.
   */
  lemma CyclesReportedAreExact(g: Graph, suppressed: set<Pair>, depth: int, maxStates: int, maxCycles: int,
                               edges: EdgeMap, findings: seq<Finding>, capped: bool, c: seq<Name>)
    requires CallsEveryKind(g) && Finished(g, suppressed, depth, maxStates, maxCycles, edges, findings, capped)
    ensures HasCycle(findings, c) ==> NestingCycle(g, suppressed, c) && TwoCredited(g, c)
    ensures HasCycle(findings, c) && OwnersDriveAt(g, c) ==> TwoThreads(g, c)
    ensures Uncut(g, depth, maxStates) && !capped && NestingCycle(g, suppressed, c) ==>
              (TwoThreads(g, c) || TwoCredited(g, c) ==> HasCycle(findings, c))
  {
    FindingsAreHazards(g, suppressed, depth, maxStates, maxCycles, edges, findings, capped, c);
    HazardsAreExact(g, suppressed, depth, maxStates, c);
  }

  /** In a topology without mixed ports the reported cycles are those that two threads drive at run time. */
  lemma CyclesAreDrivenByTwoThreads(t: Topology, fm: FlowMap, suppressed: set<Pair>, depth: int, maxStates: int,
                                    maxCycles: int, edges: EdgeMap, findings: seq<Finding>, capped: bool, c: seq<Name>)
    requires NoMixedPorts(t) && Finished(Tag(t, fm), suppressed, depth, maxStates, maxCycles, edges, findings, capped)
    ensures var g := Tag(t, fm);
      && (HasCycle(findings, c) ==> NestingCycle(g, suppressed, c) && TwoThreads(g, c))
      && (Uncut(g, depth, maxStates) && !capped && NestingCycle(g, suppressed, c) && TwoThreads(g, c) ==>
            HasCycle(findings, c))
  {
    var g := Tag(t, fm);
    TagCallsEveryKind(t, fm);
    NothingMixed(t, fm);
    OwnersDriveEverywhere(g, c);
    CyclesReportedAreExact(g, suppressed, depth, maxStates, maxCycles, edges, findings, capped, c);
  }

  lemma OwnersDriveEverywhere(g: Graph, c: seq<Name>)
    requires MixedPortsAreCalled(g)
    ensures OwnersDriveAt(g, c)
  {
    forall k, t | 0 <= k < |c| && CreditedAt(g, c, k, t) ensures DrivesAt(g, c, k, t) {
      if OwnsMixedEntry(g, t, c[k], NextOn(c, k)) {
        OwnersDrive(g, t, c[k], NextOn(c, k));
      }
    }
  }

  /** And self-deadlocks are those of the mutexes some chain re-enters, however many walks or cycles are cut. */
  lemma SelfDeadlocksReportedAreExact(g: Graph, suppressed: set<Pair>, depth: int, maxStates: int, maxCycles: int,
                                      edges: EdgeMap, findings: seq<Finding>, capped: bool, x: Name)
    requires Finished(g, suppressed, depth, maxStates, maxCycles, edges, findings, capped)
    ensures Reports(findings, x) ==> NestsUnsuppressed(g, suppressed, x, x)
    ensures Uncut(g, depth, maxStates) && NestsUnsuppressed(g, suppressed, x, x) ==> Reports(findings, x)
  {
    FindingsAreSelfReports(g, suppressed, depth, maxStates, maxCycles, edges, findings, capped, x);
    SelfDeadlocksAreExact(g, suppressed, depth, maxStates, x);
  }

  /** A self-deadlock reported with a real thread does hang that thread, where owners of mixed ports call them. */
  lemma ReportedSelfDeadlocksHang(g: Graph, suppressed: set<Pair>, depth: int, maxStates: int, maxCycles: int,
                                  edges: EdgeMap, findings: seq<Finding>, capped: bool, f: Finding, t: Name)
    requires CallsEveryKind(g) && MixedPortsAreCalled(g)
    requires Finished(g, suppressed, depth, maxStates, maxCycles, edges, findings, capped)
    requires f in findings && f.kind == SelfDeadlock && |f.edges| > 0 && Thread(t) in f.edges[0].threads
    ensures CanHang(g, t)
  {
    FindingsAreThese(g, suppressed, depth, maxStates, maxCycles, edges, findings, capped, f);
    SelfFindingsAreEvidenced(g, suppressed, depth, maxStates, f, Thread(t));
    var x := f.cycle[0];
    DriversWithinAndBeyond(g, depth, Thread(t), x, x);
    CreditedThreads(g, t, x, x);
    if OwnsMixedEntry(g, t, x, x) {
      OwnersDrive(g, t, x, x);
    }
    DriversAreCallers(g, t, x, x);
    HangsAreReentries(g, t);
  }

  /**
   * If a thorough analysis reports no self-deadlock, then whoever drives an edge gets to hold and to want its
   * mutexes.
   */
  lemma DriversHoldAndWant(g: Graph, depth: int, maxStates: int, maxCycles: int, edges: EdgeMap, findings: seq<Finding>,
                           t: Name, a: Name, b: Name) returns (run: seq<State>)
    requires Thorough(g, depth, maxStates, maxCycles, edges, findings) && (forall x :: !Reports(findings, x))
    requires Drives(g, t, a, b)
    ensures IsRun(g, run) && HoldsAndWants(Last(run), t, a, b)
  {
    if CanHang(g, t) {
      var hung :| IsRun(g, hung) && CircularWait(Last(hung), [t]);
      DeadlockSound(g, depth, maxStates, maxCycles, edges, findings, hung, |hung| - 1, [t]);
      assert false;
    }
    run := DrivesPlainly(g, t, a, b);
  }
}
