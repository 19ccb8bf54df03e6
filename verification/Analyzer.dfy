/** The deadlock analysis of guarded_port_analyzer.py: building the lock-order graph and reporting its cycles. */
module Analyzer {
  import opened Basics
  import opened Graph
  import opened Walk
  import opened Traversals
  import opened Threads
  import opened LockOrder
  import opened Limits
  import opened LockGraph
  import C = Components
  import T = Tarjan
  import opened Cycles
  import opened CycleOrder
  import opened LockGroups

  // ---------------------------------------------------------------------------------------------
  // Classifying one cycle
  // ---------------------------------------------------------------------------------------------

  function RealThreads(edge: LockEdge): set<Origin> {
    set o | o in edge.threads && o.Thread?
  }

  function CycleEdgesFrom(edges: EdgeMap, c: seq<Name>, k: nat): seq<LockEdge>
    requires k <= |c|
    decreases |c| - k
  {
    if k == |c| then []
    else
      var pair := (c[k], NextOn(c, k));
      (if pair in edges then [edges[pair]] else []) + CycleEdgesFrom(edges, c, k + 1)
  }

  function CycleEdges(edges: EdgeMap, c: seq<Name>): seq<LockEdge> {
    CycleEdgesFrom(edges, c, 0)
  }

  predicate Conflict(a: LockEdge, b: LockEdge) {
    exists t1, t2 :: t1 in RealThreads(a) && t2 in RealThreads(b) && t1 != t2
  }

  /** Two different real threads can each drive a different edge of the cycle. */
  predicate DistinctPossible(es: seq<LockEdge>) {
    exists i, j :: 0 <= i < j < |es| && Conflict(es[i], es[j])
  }

  lemma {:induction false} CycleEdgesAreAll(edges: EdgeMap, c: seq<Name>, k: nat)
    requires IsCycle(edges.Keys, c) && k <= |c|
    ensures var es := CycleEdgesFrom(edges, c, k);
      |es| == |c| - k && forall i :: 0 <= i < |es| ==> es[i] == edges[(c[k + i], NextOn(c, k + i))]
    decreases |c| - k
  {
    if k < |c| {
      CycleEdgesAreAll(edges, c, k + 1);
      var pair, rest := (c[k], NextOn(c, k)), CycleEdgesFrom(edges, c, k + 1);
      assert pair in edges.Keys;
      assert CycleEdgesFrom(edges, c, k) == [edges[pair]] + rest;
    }
  }

  /** A lock-order cycle that is a current hazard: two real threads can drive two of its edges. */
  ghost predicate Hazard(edges: EdgeMap, c: seq<Name>) {
    Canonical(edges.Keys, c) && DistinctPossible(CycleEdges(edges, c))
  }

  // ---------------------------------------------------------------------------------------------
  // The analyzer
  // ---------------------------------------------------------------------------------------------

  /** The cycle findings among some findings are about distinct hazards and carry their edges. */
  ghost predicate ReportsHazards(edges: EdgeMap, fs: seq<Finding>) {
    && (forall f :: f in fs ==> f == Finding(Abba, f.cycle, CycleEdges(edges, f.cycle)) && Hazard(edges, f.cycle))
    && (forall i, j :: 0 <= i < j < |fs| ==> fs[i].cycle != fs[j].cycle)
  }

  ghost predicate HasCycle(fs: seq<Finding>, c: seq<Name>) {
    exists f :: f in fs && f.kind == Abba && f.cycle == c
  }

  /** Of a component's cycles, exactly the hazards among these are reported. */
  ghost predicate ReportedAmong(edges: EdgeMap, members: set<Name>, cycles: seq<seq<Name>>, fs: seq<Finding>) {
    forall c :: HasCycle(fs, c) && Within(members, c) <==> c in cycles && Hazard(edges, c)
  }

  ghost predicate InOrderWithin(members: set<Name>, fs: seq<Finding>) {
    forall i, j :: 0 <= i < j < |fs| && Within(members, fs[i].cycle) && Within(members, fs[j].cycle)
      ==> Precedes(fs[i].cycle, fs[j].cycle)
  }

  /**
   * A component has been dealt with: of its cycles, or at the cap of the first of them, every hazard is reported, and
   * no other, the shortest first and then in name order.
   */
  ghost predicate Served(edges: EdgeMap, members: set<Name>, cap: int, fs: seq<Finding>) {
    && (exists cycles :: FirstCycles(edges.Keys, members, cap, cycles) && ReportedAmong(edges, members, cycles, fs))
    && InOrderWithin(members, fs)
  }

  class GuardedPortAnalyzer {
    const g: Graph
    const origins: OriginTable
    const maxLockDepth: int
    const maxStates: int
    const maxCycles: int
    const suppressions: set<Pair>
    var lockEdges: EdgeMap
    var findings: seq<Finding>
    var truncated: bool
    ghost var events: seq<Event>

    ghost predicate Valid()
      reads this, origins
    {
      && origins.Valid() && origins.g == g
      && lockEdges == EdgesAfter(g, suppressions, events)
    }

    ghost predicate Building()
      reads this, origins
    {
      Valid() && findings == SelfAfter(g, suppressions, events)
    }

    constructor (g: Graph, maxLockDepth: int, maxStates: int, maxCycles: int, suppressions: set<Pair>)
      ensures Building() && fresh(origins) && events == [] && findings == [] && !truncated
      ensures this.g == g && this.maxLockDepth == maxLockDepth && this.maxStates == maxStates
      ensures this.maxCycles == maxCycles && this.suppressions == suppressions
    {
      this.g, this.maxLockDepth, this.maxStates, this.maxCycles := g, maxLockDepth, maxStates, maxCycles;
      this.suppressions := suppressions;
      origins := new OriginTable(g);
      lockEdges, findings, truncated, events := map[], [], false, [];
    }

    /** The callback: records what the hop shows and returns what the walk does next. */
    method OnHop(hop: Hop<LockStack>, threads: set<Origin>) returns (next: Option<LockStack>)
      requires Building() && threads == OriginsOf(g, hop.entry)
      modifies this
      ensures Building() && events == old(events) + EventsOf(hop)
      ensures next == LockDecide(maxLockDepth, hop.call, hop.state)
      ensures truncated == (old(truncated) || DepthHit(maxLockDepth, hop))
    {
      var held := hop.state;
      if hop.call.kind == Async {
        return None;
      }
      if hop.call.kind == Sync {
        return Some(held);
      }
      var acquired := hop.call.dest.instance;
      if acquired in held {
        RecordOne(Event(acquired, acquired, hop.entry, hop.path), threads);
        return None;
      }
      for i := 0 to |held|
        invariant Building() && truncated == old(truncated)
        invariant events + Nested(held[i..], hop) == old(events) + Nested(held, hop)
      {
        assert held[i..][0] == held[i] && held[i..][1..] == held[i + 1..];
        Regroup(events, [Event(held[i], acquired, hop.entry, hop.path)], Nested(held[i + 1..], hop));
        RecordOne(Event(held[i], acquired, hop.entry, hop.path), threads);
      }
      if |held| >= maxLockDepth {
        truncated := true;
        return None;
      }
      return Some(held + [acquired]);
    }

    /** Records one observation: a re-entry as a finding, any other pair as a lock-order edge. */
    method RecordOne(e: Event, threads: set<Origin>)
      requires Building() && threads == OriginsOf(g, e.entry)
      modifies this`lockEdges, this`findings, this`events
      ensures Building() && events == old(events) + [e]
    {
      AfterOneMore(g, suppressions, events, e);
      events := events + [e];
      if e.holder == e.acquired {
        findings := RecordSelf(suppressions, findings, e, threads);
      } else {
        lockEdges := RecordEdge(suppressions, lockEdges, e, threads);
      }
    }

    /** The callback on one hop after another. */
    method Replay(entry: PortKey, log: seq<Hop<LockStack>>, threads: set<Origin>)
      requires Building() && threads == OriginsOf(g, entry) && forall hop :: hop in log ==> hop.entry == entry
      modifies this
      ensures Building() && events == old(events) + AllEvents(log)
      ensures truncated == (old(truncated) || Noticed(maxLockDepth, log))
    {
      NothingLogged(maxLockDepth);
      for i := 0 to |log|
        invariant Building() && events == old(events) + AllEvents(log[..i])
        invariant truncated == (old(truncated) || Noticed(maxLockDepth, log[..i]))
      {
        AllEventsSnoc(log, i);
        NoticedSnoc(maxLockDepth, log, i);
        Regroup(old(events), AllEvents(log[..i]), EventsOf(log[i]));
        var next := OnHop(log[i], threads);
      }
      assert log[..|log|] == log;
    }

    /**
     * Walks one guarded entry. The callback leaves the flag at `noted`; but the flag was read before the walk, so what
     * the callback set in it is lost.
     */
    method WalkEntry(walker: Traversal<LockStack, set<Name>>, entry: PortKey) returns (ghost noted: bool)
      requires Building() && walker.g == g && walker.policy == LockPolicy(maxLockDepth)
      modifies this, origins, walker
      ensures Building()
      ensures var walk := LockWalk(g, maxLockDepth, entry, old(walker.budget));
        && events == old(events) + AllEvents(walk.log)
        && walker.budget == walk.budget
        && noted == (old(truncated) || Noticed(maxLockDepth, walk.log))
        && truncated == (old(truncated) || walk.truncated)
    {
      var threads := origins.ThreadsReaching(entry);
      var before := truncated;
      var log, cut := walker.WalkChains(entry, Guarded, [entry.instance]);
      LogIsOfEntry(g, maxLockDepth, entry, old(walker.budget));
      Replay(entry, log, threads);
      noted := truncated;
      truncated := before || cut;
    }

    ghost predicate Walks(walker: Traversal<LockStack, set<Name>>)
      reads this, origins, walker
    {
      Building() && walker.g == g && walker.policy == LockPolicy(maxLockDepth)
    }

    /** What has been observed so far and what the entries left will add make up the whole. */
    ghost predicate Left(walker: Traversal<LockStack, set<Name>>, left: seq<PortKey>, before: bool)
      reads this, origins, walker
    {
      Walks(walker) && SoFar(g, maxLockDepth, maxStates, left, walker.budget, events, truncated, before)
    }

    /** Walks the next of the entries left. */
    method WalkNext(walker: Traversal<LockStack, set<Name>>, entry: PortKey, ghost later: seq<PortKey>,
        ghost before: bool)
      requires Left(walker, [entry] + later, before)
      modifies this, origins, walker
      ensures Left(walker, later, before)
    {
      OneMoreEntry(g, maxLockDepth, maxStates, entry, later, walker.budget, events, truncated, before);
      ghost var noted := WalkEntry(walker, entry);
    }

    /** Walks the guarded ports of one instance. */
    method WalkInstance(walker: Traversal<LockStack, set<Name>>, name: Name, ghost later: seq<PortKey>,
        ghost before: bool)
      requires Left(walker, EntriesAt(name, Sorted(GuardedPorts(g, name))) + later, before)
      modifies this, origins, walker
      ensures Left(walker, later, before)
    {
      var ports := Sorted(GuardedPorts(g, name));
      FirstPort(name, ports, later);
      for j := 0 to |ports|
        invariant Left(walker, EntriesAt(name, ports[j..]) + later, before)
      {
        NextPort(name, ports, j, later);
        WalkNext(walker, PortKey(name, ports[j]), EntriesAt(name, ports[j + 1..]) + later, before);
      }
      NoPort(name, ports, later);
    }

    method BuildLockGraph()
      requires Building() && events == []
      modifies this, origins
      ensures Building()
      ensures var walk := Build(g, maxLockDepth, maxStates);
        events == AllEvents(walk.log) && truncated == (old(truncated) || walk.truncated)
    {
      var walker := new Traversal<LockStack, set<Name>>(g, LockPolicy(maxLockDepth), maxStates);
      var names := Sorted(g.instances);
      NothingWalked(g, maxLockDepth, maxStates, names, truncated);
      for i := 0 to |names|
        invariant fresh(walker) && Left(walker, GuardedEntriesOf(g, names[i..]), old(truncated))
      {
        NextInstance(g, names, i);
        WalkInstance(walker, names[i], GuardedEntriesOf(g, names[i + 1..]), old(truncated));
      }
      AllWalked(g, maxLockDepth, maxStates, names, walker.budget, events, truncated, old(truncated));
    }

    /** Reports the hazards among the cycles of one component; at the cap, among those the search came to. */
    method DetectIn(group: seq<Name>) returns (ghost capped: bool, ghost added: seq<Finding>)
      requires Valid() && group != []
      modifies this`findings, this`truncated
      ensures Valid() && findings == old(findings) + added && ReportsHazards(lockEdges, added)
      ensures truncated == (old(truncated) || capped)
      ensures forall f :: f in added ==> Within(ToSet(group), f.cycle)
      ensures Served(lockEdges, ToSet(group), maxCycles, added)
      ensures capped <==> AtLeast(lockEdges.Keys, ToSet(group), maxCycles)
    {
      var cycles, cut := ElementaryCycles(lockEdges.Keys, ToSet(group), maxCycles);
      capped, added := cut, [];
      assert group[0] in ToSet(group);
      truncated := truncated || cut;
      for i := 0 to |cycles|
        invariant Valid() && findings == old(findings) + added && ReportsHazards(lockEdges, added)
        invariant truncated == (old(truncated) || capped)
        invariant Sifted(lockEdges, cycles[..i], added)
      {
        var cycle := cycles[i];
        assert cycle in cycles && CycleInside(lockEdges.Keys, ToSet(group), cycle);
        SiftOne(lockEdges, cycles, i, added);
        if DistinctPossible(CycleEdges(lockEdges, cycle)) {
          var f := Finding(Abba, cycle, CycleEdges(lockEdges, cycle));
          Regroup(old(findings), added, [f]);
          findings, added := findings + [f], added + [f];
        }
      }
      assert cycles[..|cycles|] == cycles;
      SiftedInside(lockEdges, group, maxCycles, cycles, added);
    }

    /** Reports the hazards of one more component, unless it has a single member. */
    method DetectNext(ghost adj: C.Adjacency, groups: seq<seq<Name>>, i: nat, ghost added: seq<Finding>,
        ghost capped: bool)
      returns (ghost cut: bool, ghost more: seq<Finding>)
      requires Valid() && C.AreComponents(adj, groups) && i < |groups|
          && Detected(lockEdges, groups[..i], maxCycles, added, capped)
      modifies this`findings, this`truncated
      ensures Valid() && findings == old(findings) + more && truncated == (old(truncated) || cut)
      ensures Detected(lockEdges, groups[..i + 1], maxCycles, added + more, capped || cut)
    {
      cut, more := false, [];
      if |groups[i]| >= 2 {
        cut, more := DetectIn(groups[i]);
      }
      DetectedOneMore(lockEdges, adj, groups, i, maxCycles, added, capped, more, cut);
    }

    /** Turns the lock-order cycles of every component into findings. */
    method DetectCycles() returns (ghost capped: bool, ghost added: seq<Finding>)
      requires Valid()
      modifies this`findings, this`truncated
      ensures Valid() && findings == old(findings) + added && ReportsHazards(lockEdges, added)
      ensures truncated == (old(truncated) || capped)
      ensures forall members :: Component(lockEdges.Keys, members) ==> Served(lockEdges, members, maxCycles, added)
      ensures capped <==> CapReached(lockEdges.Keys, maxCycles)
    {
      var adj := Adjacency(lockEdges.Keys);
      var groups := T.StronglyConnected(adj);
      capped, added := false, [];
      NoGroups(lockEdges, groups, maxCycles);
      for i := 0 to |groups|
        invariant Valid() && findings == old(findings) + added && truncated == (old(truncated) || capped)
        invariant Detected(lockEdges, groups[..i], maxCycles, added, capped)
      {
        ghost var cut, more := DetectNext(adj, groups, i, added, capped);
        Regroup(old(findings), added, more);
        capped, added := capped || cut, added + more;
      }
      assert groups[..|groups|] == groups;
      AllDetected(lockEdges, adj, groups, maxCycles, added, capped);
    }

    /** The whole analysis; the flag is set if a walk is truncated or a component has as many cycles as the cap. */
    method Run() returns (ghost capped: bool)
      requires Building() && events == [] && !truncated
      modifies this, origins
      ensures Valid()
      ensures Finished(g, suppressions, maxLockDepth, maxStates, maxCycles, lockEdges, findings, capped)
      ensures truncated == (Build(g, maxLockDepth, maxStates).truncated || capped)
    {
      BuildLockGraph();
      ghost var self := findings;
      ghost var added;
      capped, added := DetectCycles();
      assert findings == self + added;
    }
  }

  /** Some group of at least two members holds the whole cycle. */
  ghost predicate InGroup(groups: seq<seq<Name>>, c: seq<Name>) {
    exists i :: 0 <= i < |groups| && |groups[i]| >= 2 && Within(ToSet(groups[i]), c)
  }

  /** The findings of a run: the self-deadlocks it observed, and then distinct hazards, component by component. */
  ghost predicate Reported(edges: EdgeMap, self: seq<Finding>, findings: seq<Finding>, cap: int) {
    exists added :: findings == self + added && ReportsAll(edges, cap, added)
  }

  ghost predicate ReportsAll(edges: EdgeMap, cap: int, added: seq<Finding>) {
    && ReportsHazards(edges, added)
    && forall members :: Component(edges.Keys, members) ==> Served(edges, members, cap, added)
  }

  /** What a finished run reports, in terms of what its walks observed, and whether the cap was reached. */
  ghost predicate Finished(g: Graph, suppressed: set<Pair>, depth: int, maxStates: int, maxCycles: int, edges: EdgeMap,
                           findings: seq<Finding>, capped: bool) {
    && edges == EdgesAfter(g, suppressed, Observed(g, depth, maxStates))
    && Reported(edges, SelfAfter(g, suppressed, Observed(g, depth, maxStates)), findings, maxCycles)
    && (capped <==> CapReached(edges.Keys, maxCycles))
  }

  /** Below the cap every hazard is reported. */
  lemma ServedIsAll(edges: EdgeMap, cap: int, fs: seq<Finding>, c: seq<Name>)
    requires ReportsAll(edges, cap, fs) && !CapReached(edges.Keys, cap) && Hazard(edges, c)
    ensures HasCycle(fs, c)
  {
    var members := CycleHasComponent(edges.Keys, c);
    assert Served(edges, members, cap, fs);
    var cycles :| FirstCycles(edges.Keys, members, cap, cycles) && ReportedAmong(edges, members, cycles, fs);
    assert |cycles| < cap by {
      assert !AtLeast(edges.Keys, members, cap);
    }
    assert CycleInside(edges.Keys, members, c);
  }

  /** The cycles among the findings of a finished run are hazards of its edges, and below the cap all of them. */
  lemma FindingsAreHazards(g: Graph, suppressed: set<Pair>, depth: int, maxStates: int, maxCycles: int, edges: EdgeMap,
                           findings: seq<Finding>, capped: bool, c: seq<Name>)
    requires Finished(g, suppressed, depth, maxStates, maxCycles, edges, findings, capped)
    ensures HasCycle(findings, c) ==> Hazard(edges, c)
    ensures !capped && Hazard(edges, c) ==> HasCycle(findings, c)
  {
    var self := SelfAfter(g, suppressed, Observed(g, depth, maxStates));
    var added :| findings == self + added && ReportsAll(edges, maxCycles, added);
    SelfFindingsAreExact(g, suppressed, Observed(g, depth, maxStates));
    MoreFindings(self, added);
    assert !HasCycle(self, c);
    if !capped && Hazard(edges, c) {
      ServedIsAll(edges, maxCycles, added, c);
    }
  }

  /**
   * Whether or not the cap is reached, there or elsewhere: of each component's cycles, or of the earliest ones, as many
   * as the cap, exactly the hazards are reported.
   */
  lemma EveryComponentIsServed(g: Graph, suppressed: set<Pair>, depth: int, maxStates: int, maxCycles: int,
                               edges: EdgeMap, findings: seq<Finding>, capped: bool, members: set<Name>)
    returns (cycles: seq<seq<Name>>)
    requires Finished(g, suppressed, depth, maxStates, maxCycles, edges, findings, capped)
    requires Component(edges.Keys, members)
    ensures FirstCycles(edges.Keys, members, maxCycles, cycles)
    ensures forall c :: HasCycle(findings, c) && Within(members, c) <==> c in cycles && Hazard(edges, c)
    ensures InOrderWithin(members, Filter(findings, (f: Finding) => f.kind == Abba))
  {
    var self := SelfAfter(g, suppressed, Observed(g, depth, maxStates));
    var added :| findings == self + added && ReportsAll(edges, maxCycles, added);
    SelfFindingsAreExact(g, suppressed, Observed(g, depth, maxStates));
    MoreFindings(self, added);
    assert Served(edges, members, maxCycles, added);
    cycles :| FirstCycles(edges.Keys, members, maxCycles, cycles) && ReportedAmong(edges, members, cycles, added);
    assert forall c :: !HasCycle(self, c);
    OnlyAdded(self, added);
  }

  lemma {:induction false} OnlyAdded(self: seq<Finding>, added: seq<Finding>)
    requires (forall f :: f in self ==> f.kind == SelfDeadlock) && forall f :: f in added ==> f.kind == Abba
    ensures Filter(self + added, (f: Finding) => f.kind == Abba) == added
    decreases |self| + |added|
  {
    var isCycle := (f: Finding) => f.kind == Abba;
    if self != [] {
      assert self + added == [self[0]] + (self[1..] + added);
      FilterCons(self[0], self[1..] + added, isCycle);
      OnlyAdded(self[1..], added);
    } else if added != [] {
      assert self + added == [added[0]] + added[1..];
      FilterCons(added[0], added[1..], isCycle);
      assert [] + added[1..] == added[1..];
      OnlyAdded([], added[1..]);
    }
  }

  /** Each finding of a finished run is a self-deadlock it observed, or a reported cycle with its edges. */
  lemma FindingsAreThese(g: Graph, suppressed: set<Pair>, depth: int, maxStates: int, maxCycles: int, edges: EdgeMap,
                         findings: seq<Finding>, capped: bool, f: Finding)
    requires Finished(g, suppressed, depth, maxStates, maxCycles, edges, findings, capped)
    ensures f in findings <==>
      if f.kind == Abba then f == Finding(Abba, f.cycle, CycleEdges(edges, f.cycle)) && HasCycle(findings, f.cycle)
      else f in SelfAfter(g, suppressed, Observed(g, depth, maxStates))
  {
    var self := SelfAfter(g, suppressed, Observed(g, depth, maxStates));
    var added :| findings == self + added && ReportsAll(edges, maxCycles, added);
    SelfFindingsAreExact(g, suppressed, Observed(g, depth, maxStates));
    assert forall x :: x in findings <==> x in self || x in added;
  }

  /** The self-deadlocks among them are those the walks observed. */
  lemma FindingsAreSelfReports(g: Graph, suppressed: set<Pair>, depth: int, maxStates: int, maxCycles: int,
                               edges: EdgeMap, findings: seq<Finding>, capped: bool, x: Name)
    requires Finished(g, suppressed, depth, maxStates, maxCycles, edges, findings, capped)
    ensures Reports(findings, x) <==> Reports(SelfAfter(g, suppressed, Observed(g, depth, maxStates)), x)
  {
    var self := SelfAfter(g, suppressed, Observed(g, depth, maxStates));
    var added :| findings == self + added && ReportsAll(edges, maxCycles, added);
    assert forall f :: f in findings <==> f in self || f in added;
  }

  /** The findings are about hazards among the cycles, about all of them, and in their order. */
  ghost predicate Sifted(edges: EdgeMap, cycles: seq<seq<Name>>, added: seq<Finding>) {
    && (forall f :: f in added ==> f.cycle in cycles)
    && (forall c :: c in cycles && Hazard(edges, c) ==> HasCycle(added, c))
    && (forall i, j :: 0 <= i < j < |added| ==> Precedes(added[i].cycle, added[j].cycle))
  }

  lemma SiftOne(edges: EdgeMap, cycles: seq<seq<Name>>, i: nat, added: seq<Finding>)
    requires i < |cycles| && NoDup(cycles) && Canonical(edges.Keys, cycles[i])
    requires forall j, k :: 0 <= j < k < |cycles| ==> Precedes(cycles[j], cycles[k])
    requires ReportsHazards(edges, added) && Sifted(edges, cycles[..i], added)
    ensures if Hazard(edges, cycles[i]) then
              var f := Finding(Abba, cycles[i], CycleEdges(edges, cycles[i]));
              ReportsHazards(edges, added + [f]) && Sifted(edges, cycles[..i + 1], added + [f])
            else Sifted(edges, cycles[..i + 1], added)
  {
    assert cycles[..i + 1] == cycles[..i] + [cycles[i]];
    if Hazard(edges, cycles[i]) {
      var f := Finding(Abba, cycles[i], CycleEdges(edges, cycles[i]));
      assert cycles[i] !in cycles[..i];
      forall k | 0 <= k < |added| ensures Precedes(added[k].cycle, cycles[i]) {
        assert added[k] in added;
        var j :| 0 <= j < i && cycles[..i][j] == added[k].cycle;
      }
      MoreFindings(added, [f]);
      assert f in added + [f];
    }
  }

  lemma MoreFindings(added: seq<Finding>, more: seq<Finding>)
    ensures forall c :: HasCycle(added + more, c) <==> HasCycle(added, c) || HasCycle(more, c)
  {
    forall c ensures HasCycle(added + more, c) <==> HasCycle(added, c) || HasCycle(more, c) {
      if HasCycle(added, c) {
        var f :| f in added && f.kind == Abba && f.cycle == c;
        assert f in added + more;
      }
      if HasCycle(more, c) {
        var f :| f in more && f.kind == Abba && f.cycle == c;
        assert f in added + more;
      }
    }
  }

  lemma SiftedInside(edges: EdgeMap, group: seq<Name>, cap: int, cycles: seq<seq<Name>>, added: seq<Finding>)
    requires ReportsHazards(edges, added) && Sifted(edges, cycles, added)
    requires FirstCycles(edges.Keys, ToSet(group), cap, cycles)
    ensures forall f :: f in added ==> Within(ToSet(group), f.cycle)
    ensures Served(edges, ToSet(group), cap, added)
  {
    assert forall f :: f in added ==> CycleInside(edges.Keys, ToSet(group), f.cycle);
    assert forall c :: c in cycles ==> CycleInside(edges.Keys, ToSet(group), c);
    assert ReportedAmong(edges, ToSet(group), cycles, added);
  }

  /** Findings that do not lie in the component change nothing for it, whether they come before or after. */
  lemma ServedAmong(edges: EdgeMap, members: set<Name>, cap: int, before: seq<Finding>, fs: seq<Finding>,
                    after: seq<Finding>)
    requires Served(edges, members, cap, fs)
    requires forall f :: f in before || f in after ==> !Within(members, f.cycle)
    ensures Served(edges, members, cap, before + fs + after)
  {
    var all := before + fs + after;
    var cycles :| FirstCycles(edges.Keys, members, cap, cycles) && ReportedAmong(edges, members, cycles, fs);
    MoreFindings(before, fs);
    MoreFindings(before + fs, after);
    assert ReportedAmong(edges, members, cycles, all);
    OrderAmong(members, before, fs, after);
  }

  lemma OrderAmong(members: set<Name>, before: seq<Finding>, fs: seq<Finding>, after: seq<Finding>)
    requires InOrderWithin(members, fs) && forall f :: f in before || f in after ==> !Within(members, f.cycle)
    ensures InOrderWithin(members, before + fs + after)
  {
    var all := before + fs + after;
    assert forall i :: 0 <= i < |before| ==> all[i] == before[i] && before[i] in before;
    assert forall i :: 0 <= i < |after| ==> all[|before| + |fs| + i] == after[i] && after[i] in after;
    forall i | 0 <= i < |all| && Within(members, all[i].cycle)
      ensures |before| <= i < |before| + |fs| && all[i] == fs[i - |before|]
    {
    }
  }

  lemma GroupsAreDisjoint(adj: C.Adjacency, groups: seq<seq<Name>>, i: nat, c: seq<Name>)
    requires C.AreComponents(adj, groups) && i < |groups| && c != [] && InGroup(groups[..i], c)
    ensures !Within(ToSet(groups[i]), c)
  {
    var j :| 0 <= j < i && |groups[..i][j]| >= 2 && Within(ToSet(groups[..i][j]), c);
    assert groups[..i][j] == groups[j];
    assert c[0] in c;
    assert c[0] in ToSet(groups[j]);
    assert c[0] !in groups[i];
  }

  /** The hazards of one more group are new ones. */
  lemma NextGroup(edges: EdgeMap, adj: C.Adjacency, groups: seq<seq<Name>>, i: nat, added: seq<Finding>,
                  more: seq<Finding>)
    requires C.AreComponents(adj, groups) && i < |groups| && ReportsHazards(edges, added) && ReportsHazards(edges, more)
    requires forall f :: f in added ==> InGroup(groups[..i], f.cycle)
    requires forall f :: f in more ==> |groups[i]| >= 2 && Within(ToSet(groups[i]), f.cycle)
    ensures ReportsHazards(edges, added + more)
    ensures forall f :: f in added + more ==> InGroup(groups[..i + 1], f.cycle)
    ensures forall c :: InGroup(groups[..i + 1], c) <==>
              InGroup(groups[..i], c) || (|groups[i]| >= 2 && Within(ToSet(groups[i]), c))
    ensures forall c :: HasCycle(added, c) || HasCycle(more, c) ==> HasCycle(added + more, c)
  {
    forall j, k | 0 <= j < k < |added + more| ensures (added + more)[j].cycle != (added + more)[k].cycle {
      if j < |added| <= k {
        assert added[j] in added && more[k - |added|] in more;
        GroupsAreDisjoint(adj, groups, i, added[j].cycle);
      }
    }
    assert groups[..i + 1] == groups[..i] + [groups[i]];
    forall c ensures InGroup(groups[..i + 1], c) <==>
              InGroup(groups[..i], c) || (|groups[i]| >= 2 && Within(ToSet(groups[i]), c)) {
      if InGroup(groups[..i], c) {
        var j :| 0 <= j < i && |groups[..i][j]| >= 2 && Within(ToSet(groups[..i][j]), c);
        assert groups[..i + 1][j] == groups[..i][j];
      }
      if |groups[i]| >= 2 && Within(ToSet(groups[i]), c) {
        assert groups[..i + 1][i] == groups[i];
      }
    }
    MoreFindings(added, more);
  }

  /** Each of these groups has been dealt with, by findings about its own cycles. */
  ghost predicate Detected(edges: EdgeMap, groups: seq<seq<Name>>, cap: int, added: seq<Finding>, capped: bool) {
    && ReportsHazards(edges, added) && (forall f :: f in added ==> InGroup(groups, f.cycle))
    && (forall i :: 0 <= i < |groups| && |groups[i]| >= 2 ==> Served(edges, ToSet(groups[i]), cap, added))
    && (capped <==> exists i :: 0 <= i < |groups| && |groups[i]| >= 2 && AtLeast(edges.Keys, ToSet(groups[i]), cap))
  }

  lemma DetectedOneMore(edges: EdgeMap, adj: C.Adjacency, groups: seq<seq<Name>>, i: nat, cap: int, added: seq<Finding>,
                        capped: bool, more: seq<Finding>, cut: bool)
    requires C.AreComponents(adj, groups) && i < |groups| && Detected(edges, groups[..i], cap, added, capped)
    requires ReportsHazards(edges, more)
    requires forall f :: f in more ==> |groups[i]| >= 2 && Within(ToSet(groups[i]), f.cycle)
    requires |groups[i]| >= 2 ==> Served(edges, ToSet(groups[i]), cap, more)
    requires cut <==> |groups[i]| >= 2 && AtLeast(edges.Keys, ToSet(groups[i]), cap)
    ensures Detected(edges, groups[..i + 1], cap, added + more, capped || cut)
  {
    NextGroup(edges, adj, groups, i, added, more);
    OthersStayServed(edges, adj, groups, i, cap, added, more);
    var sofar := groups[..i + 1];
    assert forall j :: 0 <= j < i ==> sofar[j] == groups[..i][j];
    assert sofar[i] == groups[i];
    if |groups[i]| >= 2 {
      forall f | f in added ensures !Within(ToSet(groups[i]), f.cycle) {
        GroupsAreDisjoint(adj, groups, i, f.cycle);
      }
      ServedAmong(edges, ToSet(groups[i]), cap, added, more, []);
      assert added + more + [] == added + more;
    }
  }

  lemma OthersStayServed(edges: EdgeMap, adj: C.Adjacency, groups: seq<seq<Name>>, i: nat, cap: int,
                         added: seq<Finding>, more: seq<Finding>)
    requires C.AreComponents(adj, groups) && i < |groups| && ReportsHazards(edges, more)
    requires forall j :: 0 <= j < i && |groups[..i][j]| >= 2 ==> Served(edges, ToSet(groups[..i][j]), cap, added)
    requires forall f :: f in more ==> |groups[i]| >= 2 && Within(ToSet(groups[i]), f.cycle)
    ensures forall j :: 0 <= j < i && |groups[j]| >= 2 ==> Served(edges, ToSet(groups[j]), cap, added + more)
  {
    forall j | 0 <= j < i && |groups[j]| >= 2 ensures Served(edges, ToSet(groups[j]), cap, added + more) {
      assert groups[..i][j] == groups[j];
      forall f | f in more ensures !Within(ToSet(groups[j]), f.cycle) {
        if Within(ToSet(groups[j]), f.cycle) {
          assert InGroup(groups[..i], f.cycle);
          GroupsAreDisjoint(adj, groups, i, f.cycle);
        }
      }
      ServedAmong(edges, ToSet(groups[j]), cap, [], added, more);
      assert [] + added + more == added + more;
    }
  }

  lemma NoGroups(edges: EdgeMap, groups: seq<seq<Name>>, cap: int)
    ensures Detected(edges, groups[..0], cap, [], false)
  {
  }

  lemma AllDetected(edges: EdgeMap, adj: C.Adjacency, groups: seq<seq<Name>>, cap: int, added: seq<Finding>,
                    capped: bool)
    requires Represents(adj, edges.Keys) && C.AreComponents(adj, groups) && Detected(edges, groups, cap, added, capped)
    ensures forall members :: Component(edges.Keys, members) ==> Served(edges, members, cap, added)
    ensures capped <==> CapReached(edges.Keys, cap)
  {
    forall members | Component(edges.Keys, members) ensures Served(edges, members, cap, added) {
      var i := ComponentIsGroup(adj, edges.Keys, groups, members);
    }
    if CapReached(edges.Keys, cap) {
      var members :| Component(edges.Keys, members) && AtLeast(edges.Keys, members, cap);
      var i := ComponentIsGroup(adj, edges.Keys, groups, members);
    }
    if capped {
      var i :| 0 <= i < |groups| && |groups[i]| >= 2 && AtLeast(edges.Keys, ToSet(groups[i]), cap);
      GroupIsComponent(adj, edges.Keys, groups, i);
    }
  }

  /** What the walks so far and the walks of the entries left add up to. */
  ghost predicate SoFar(g: Graph, depth: int, maxStates: int, left: seq<PortKey>, budget: int, events: seq<Event>,
                        truncated: bool, before: bool) {
    var rest, whole := BuildFrom(g, depth, left, budget), Build(g, depth, maxStates);
    && events + AllEvents(rest.log) == AllEvents(whole.log)
    && ((truncated || rest.truncated) <==> (before || whole.truncated))
  }

  lemma NothingWalked(g: Graph, depth: int, maxStates: int, names: seq<Name>, truncated: bool)
    requires names == Sorted(g.instances)
    ensures SoFar(g, depth, maxStates, GuardedEntriesOf(g, names[0..]), maxStates, [], truncated, truncated)
  {
    assert names[0..] == names;
  }

  lemma AllWalked(g: Graph, depth: int, maxStates: int, names: seq<Name>, budget: int, events: seq<Event>,
                  truncated: bool, before: bool)
    requires SoFar(g, depth, maxStates, GuardedEntriesOf(g, names[|names|..]), budget, events, truncated, before)
    ensures events == AllEvents(Build(g, depth, maxStates).log)
    ensures truncated == (before || Build(g, depth, maxStates).truncated)
  {
    assert names[|names|..] == [];
    assert events + [] == events;
  }

  lemma OneMoreEntry(g: Graph, depth: int, maxStates: int, entry: PortKey, later: seq<PortKey>, budget: int,
                     events: seq<Event>, truncated: bool, before: bool)
    requires SoFar(g, depth, maxStates, [entry] + later, budget, events, truncated, before)
    ensures var walk := LockWalk(g, depth, entry, budget);
      SoFar(g, depth, maxStates, later, walk.budget, events + AllEvents(walk.log), truncated || walk.truncated, before)
  {
    var walk := LockWalk(g, depth, entry, budget);
    var rest := BuildFrom(g, depth, later, walk.budget);
    assert ([entry] + later)[1..] == later;
    AllEventsAppend(walk.log, rest.log);
    Regroup(events, AllEvents(walk.log), AllEvents(rest.log));
  }

  lemma FirstPort(name: Name, ports: seq<Name>, later: seq<PortKey>)
    ensures EntriesAt(name, ports[0..]) + later == EntriesAt(name, ports) + later
  {
    assert ports[0..] == ports;
  }

  lemma NextPort(name: Name, ports: seq<Name>, j: nat, later: seq<PortKey>)
    requires j < |ports|
    ensures EntriesAt(name, ports[j..]) + later == [PortKey(name, ports[j])] + (EntriesAt(name, ports[j + 1..]) + later)
  {
    assert ports[j..][1..] == ports[j + 1..];
    Regroup([PortKey(name, ports[j])], EntriesAt(name, ports[j + 1..]), later);
  }

  lemma NoPort(name: Name, ports: seq<Name>, later: seq<PortKey>)
    ensures EntriesAt(name, ports[|ports|..]) + later == later
  {
  }

  lemma NextInstance(g: Graph, names: seq<Name>, i: nat)
    requires i < |names|
    ensures GuardedEntriesOf(g, names[i..]) == EntriesAt(names[i], Sorted(GuardedPorts(g, names[i])))
        + GuardedEntriesOf(g, names[i + 1..])
  {
    assert names[i..][1..] == names[i + 1..];
  }

  lemma LogIsOfEntry(g: Graph, depth: int, entry: PortKey, budget: int)
    ensures forall hop :: hop in LockWalk(g, depth, entry, budget).log ==> hop.entry == entry
  {
    forall hop | hop in LockWalk(g, depth, entry, budget).log ensures hop.entry == entry {
      LockWalkShowsLockHops(g, depth, entry, budget, hop);
    }
  }

  lemma NothingLogged(depth: int)
    ensures AllEvents([]) == [] && !Noticed(depth, [])
  {
  }

  lemma NoticedSnoc(depth: int, log: seq<Hop<LockStack>>, i: nat)
    requires i < |log|
    ensures Noticed(depth, log[..i + 1]) <==> Noticed(depth, log[..i]) || DepthHit(depth, log[i])
  {
    assert log[..i + 1] == log[..i] + [log[i]];
    assert log[i] in log[..i + 1];
    if Noticed(depth, log[..i]) {
      var hop :| hop in log[..i] && DepthHit(depth, hop);
      assert hop in log[..i + 1];
    }
  }

  lemma AllEventsSnoc(log: seq<Hop<LockStack>>, i: nat)
    requires i < |log|
    ensures AllEvents(log[..i + 1]) == AllEvents(log[..i]) + EventsOf(log[i])
  {
    assert log[..i + 1] == log[..i] + [log[i]];
    AllEventsAppend(log[..i], [log[i]]);
    assert AllEvents([log[i]]) == EventsOf(log[i]) + [];
  }
}
