/**
 * What the accumulated lock-order graph means in terms of call chains.
 *
 * Within the depth bound the graph is exact whenever no walk runs out of its budget: an edge for every pair of mutexes
 * that a chain takes one under the other, a self-deadlock for every mutex that a chain re-enters, and on both of them
 * exactly the origins that reach an entry such a chain starts from. Where moreover no chain of the topology hits the
 * bound, the same holds of chains of any depth. What is there is evidenced in any case, whatever was cut short.
 */
module Exactness {
  import opened Basics
  import opened Graph
  import opened Threads
  import opened LockOrder
  import opened LockGraph
  import opened Limits

  ghost predicate TakenFrom(g: Graph, depth: int, entry: PortKey, holder: Name, acquired: Name) {
    (entry, Guarded) in g.handlers && Takes(g, depth, entry, holder, acquired)
  }

  ghost predicate TakenSomewhere(g: Graph, depth: int, holder: Name, acquired: Name) {
    exists entry :: TakenFrom(g, depth, entry, holder, acquired)
  }

  lemma SeenIsTaken(g: Graph, depth: int, maxStates: int, holder: Name, acquired: Name)
    ensures Seen(Observed(g, depth, maxStates), holder, acquired) ==> TakenSomewhere(g, depth, holder, acquired)
    ensures !Build(g, depth, maxStates).truncated ==>
              (Seen(Observed(g, depth, maxStates), holder, acquired) <==> TakenSomewhere(g, depth, holder, acquired))
  {
    var events := Observed(g, depth, maxStates);
    if Seen(events, holder, acquired) {
      var e :| e in events && About(e, holder, acquired);
      EventIsTaken(g, depth, maxStates, e);
    }
    if !Build(g, depth, maxStates).truncated && TakenSomewhere(g, depth, holder, acquired) {
      var entry :| TakenFrom(g, depth, entry, holder, acquired);
      TakenIsSeen(g, depth, maxStates, entry, holder, acquired);
    }
  }

  lemma EventIsTaken(g: Graph, depth: int, maxStates: int, e: Event)
    requires e in Observed(g, depth, maxStates)
    ensures Evidenced(g, depth, e) && TakenFrom(g, depth, e.entry, e.holder, e.acquired)
  {
    BuildIsSound(g, depth, GuardedEntries(g), maxStates, e);
    var n0, n :| TakesVia(g, depth, e.entry, n0, Init(e.path), n, Last(e.path), e.holder, e.acquired);
  }

  lemma TakenIsSeen(g: Graph, depth: int, maxStates: int, entry: PortKey, holder: Name, acquired: Name)
    requires !Build(g, depth, maxStates).truncated && TakenFrom(g, depth, entry, holder, acquired)
    ensures Occurs(Observed(g, depth, maxStates), entry, holder, acquired)
    ensures Seen(Observed(g, depth, maxStates), holder, acquired)
  {
    BuildIsComplete(g, depth, GuardedEntries(g), maxStates, entry, holder, acquired);
    var e :| e in Observed(g, depth, maxStates) && e.entry == entry && e.holder == holder && e.acquired == acquired;
    assert About(e, holder, acquired);
  }

  /**
   * Within the depth bound the lock-order graph is exact, whether the bound is hit or not: whatever the budget, every
   * edge is a pair some chain takes; when no walk is truncated, it has an edge for every such pair not suppressed.
   */
  lemma LockGraphIsExactWithin(g: Graph, suppressed: set<Pair>, depth: int, maxStates: int, holder: Name,
      acquired: Name)
    requires holder != acquired
    ensures var edges := EdgesAfter(g, suppressed, Observed(g, depth, maxStates));
      && ((holder, acquired) in edges ==>
            (holder, acquired) !in suppressed && TakenSomewhere(g, depth, holder, acquired))
      && (!Build(g, depth, maxStates).truncated ==>
            ((holder, acquired) in edges <==>
               (holder, acquired) !in suppressed && TakenSomewhere(g, depth, holder, acquired)))
  {
    EdgesSummarise(g, suppressed, Observed(g, depth, maxStates), holder, acquired);
    SeenIsTaken(g, depth, maxStates, holder, acquired);
  }

  /** Within the depth bound a self-deadlock is reported exactly for the mutexes some chain re-enters. */
  lemma SelfDeadlocksAreExactWithin(g: Graph, suppressed: set<Pair>, depth: int, maxStates: int, x: Name)
    ensures var findings := SelfAfter(g, suppressed, Observed(g, depth, maxStates));
      && SelfFindings(findings)
      && (Reports(findings, x) ==> (x, x) !in suppressed && TakenSomewhere(g, depth, x, x))
      && (!Build(g, depth, maxStates).truncated ==>
            (Reports(findings, x) <==> (x, x) !in suppressed && TakenSomewhere(g, depth, x, x)))
  {
    SelfFindingsAreExact(g, suppressed, Observed(g, depth, maxStates));
    SeenIsTaken(g, depth, maxStates, x, x);
  }

  ghost predicate DrivenBy(g: Graph, depth: int, o: Origin, holder: Name, acquired: Name) {
    exists entry :: TakenFrom(g, depth, entry, holder, acquired) && o in OriginsOf(g, entry)
  }

  /**
   * Within the depth bound thread attribution is exact: an untruncated run puts an origin on an edge exactly when it
   * reaches a guarded entry from which the pair is taken.
   */
  lemma EdgeThreadsAreExactWithin(g: Graph, suppressed: set<Pair>, depth: int, maxStates: int, pair: Pair, o: Origin)
    requires pair in EdgesAfter(g, suppressed, Observed(g, depth, maxStates))
    ensures var edge := EdgesAfter(g, suppressed, Observed(g, depth, maxStates))[pair];
      && (o in edge.threads ==> DrivenBy(g, depth, o, pair.0, pair.1))
      && (!Build(g, depth, maxStates).truncated ==> (o in edge.threads <==> DrivenBy(g, depth, o, pair.0, pair.1)))
  {
    var events := Observed(g, depth, maxStates);
    var edge := EdgesAfter(g, suppressed, events)[pair];
    EdgesSummarise(g, suppressed, events, pair.0, pair.1);
    if o in edge.threads {
      var e :| e in events && About(e, pair.0, pair.1) && o in OriginsOf(g, e.entry);
      EventIsTaken(g, depth, maxStates, e);
    }
    if !Build(g, depth, maxStates).truncated && DrivenBy(g, depth, o, pair.0, pair.1) {
      var entry :| TakenFrom(g, depth, entry, pair.0, pair.1) && o in OriginsOf(g, entry);
      TakenIsSeen(g, depth, maxStates, entry, pair.0, pair.1);
      var e :| e in events && e.entry == entry && e.holder == pair.0 && e.acquired == pair.1;
      assert About(e, pair.0, pair.1);
    }
  }

  /**
   * Every stored edge is evidenced: its trace is an async-free chain from its entry whose last call takes the
   * acquired mutex while the holder's is held, and no chain shown for the pair is shorter.
   */
  lemma EdgesAreEvidenced(g: Graph, suppressed: set<Pair>, depth: int, maxStates: int, pair: Pair)
    requires pair in EdgesAfter(g, suppressed, Observed(g, depth, maxStates))
    ensures var edge := EdgesAfter(g, suppressed, Observed(g, depth, maxStates))[pair];
      && edge.holder == pair.0 && edge.acquired == pair.1 && edge.holder != edge.acquired
      && Evidenced(g, depth, Event(edge.holder, edge.acquired, edge.entry, edge.trace))
      && (forall e :: e in Observed(g, depth, maxStates) && About(e, pair.0, pair.1) ==> |edge.trace| <= |e.path|)
  {
    EdgesSummarise(g, suppressed, Observed(g, depth, maxStates), pair.0, pair.1);
    var edge := EdgesAfter(g, suppressed, Observed(g, depth, maxStates))[pair];
    EventIsTaken(g, depth, maxStates, Event(pair.0, pair.1, edge.entry, edge.trace));
  }

  /** A self-deadlock finding shows a chain that re-enters its mutex, and its threads are exact in the same way. */
  lemma SelfFindingsAreEvidenced(g: Graph, suppressed: set<Pair>, depth: int, maxStates: int, f: Finding, o: Origin)
    requires f in SelfAfter(g, suppressed, Observed(g, depth, maxStates))
    ensures IsSelfFinding(f)
    ensures var x, edge := f.cycle[0], f.edges[0];
      && Evidenced(g, depth, Event(x, x, edge.entry, edge.trace))
      && (o in edge.threads ==> DrivenBy(g, depth, o, x, x))
      && (!Build(g, depth, maxStates).truncated ==> (o in edge.threads <==> DrivenBy(g, depth, o, x, x)))
  {
    var events := Observed(g, depth, maxStates);
    SelfFindingsSummarise(g, suppressed, events, f);
    var x, edge := f.cycle[0], f.edges[0];
    EventIsTaken(g, depth, maxStates, Event(x, x, edge.entry, edge.trace));
    if o in edge.threads {
      var e :| e in events && About(e, x, x) && o in OriginsOf(g, e.entry);
      EventIsTaken(g, depth, maxStates, e);
    }
    if !Build(g, depth, maxStates).truncated && DrivenBy(g, depth, o, x, x) {
      var entry :| TakenFrom(g, depth, entry, x, x) && o in OriginsOf(g, entry);
      TakenIsSeen(g, depth, maxStates, entry, x, x);
      var e :| e in events && e.entry == entry && e.holder == x && e.acquired == x;
      assert About(e, x, x);
    }
  }

  // ---------------------------------------------------------------------------------------------
  // Without regard to the depth bound
  // ---------------------------------------------------------------------------------------------

  ghost predicate NestsSomewhere(g: Graph, holder: Name, acquired: Name) {
    exists entry :: Nests(g, entry, holder, acquired)
  }

  /** The origin reaches an entry from which the two mutexes nest. */
  ghost predicate NestsFor(g: Graph, o: Origin, holder: Name, acquired: Name) {
    exists entry :: Nests(g, entry, holder, acquired) && o in OriginsOf(g, entry)
  }

  lemma NestingNeedsEntry(g: Graph, entry: PortKey, holder: Name, acquired: Name)
    requires Nests(g, entry, holder, acquired)
    ensures (entry, Guarded) in g.handlers
  {
    var n0, calls, n, c :| NestsVia(g, entry, n0, calls, n, c, holder, acquired);
  }

  /** What is taken within the bound nests; where the bound is never hit, nothing else does. */
  lemma WithinAndBeyond(g: Graph, depth: int, holder: Name, acquired: Name)
    ensures TakenSomewhere(g, depth, holder, acquired) ==> NestsSomewhere(g, holder, acquired)
    ensures !HitsBound(g, depth) && NestsSomewhere(g, holder, acquired) ==> TakenSomewhere(g, depth, holder, acquired)
  {
    if TakenSomewhere(g, depth, holder, acquired) {
      var entry :| TakenFrom(g, depth, entry, holder, acquired);
      TakenNests(g, depth, entry, holder, acquired);
    }
    if !HitsBound(g, depth) && NestsSomewhere(g, holder, acquired) {
      var entry :| Nests(g, entry, holder, acquired);
      NestingNeedsEntry(g, entry, holder, acquired);
      NoHitNothingLost(g, depth, entry, holder, acquired);
      assert TakenFrom(g, depth, entry, holder, acquired);
    }
  }

  lemma DriversWithinAndBeyond(g: Graph, depth: int, o: Origin, holder: Name, acquired: Name)
    ensures DrivenBy(g, depth, o, holder, acquired) ==> NestsFor(g, o, holder, acquired)
    ensures !HitsBound(g, depth) && NestsFor(g, o, holder, acquired) ==> DrivenBy(g, depth, o, holder, acquired)
  {
    if DrivenBy(g, depth, o, holder, acquired) {
      var entry :| TakenFrom(g, depth, entry, holder, acquired) && o in OriginsOf(g, entry);
      TakenNests(g, depth, entry, holder, acquired);
    }
    if !HitsBound(g, depth) && NestsFor(g, o, holder, acquired) {
      var entry :| Nests(g, entry, holder, acquired) && o in OriginsOf(g, entry);
      NestingNeedsEntry(g, entry, holder, acquired);
      NoHitNothingLost(g, depth, entry, holder, acquired);
      assert TakenFrom(g, depth, entry, holder, acquired);
    }
  }

  /** No walk was cut short: neither by the budget nor, anywhere in the topology, by the depth bound. */
  ghost predicate Uncut(g: Graph, depth: int, maxStates: int) {
    !Build(g, depth, maxStates).truncated && !HitsBound(g, depth)
  }

  /**
   * The lock-order graph is exact: every edge is a pair that nests on some chain; when no walk is cut short, it has an
   * edge for every such pair that is not suppressed, however deep the chain.
   */
  lemma LockGraphIsExact(g: Graph, suppressed: set<Pair>, depth: int, maxStates: int, holder: Name, acquired: Name)
    requires holder != acquired
    ensures var edges := EdgesAfter(g, suppressed, Observed(g, depth, maxStates));
      && ((holder, acquired) in edges ==> (holder, acquired) !in suppressed && NestsSomewhere(g, holder, acquired))
      && (Uncut(g, depth, maxStates) && (holder, acquired) !in suppressed && NestsSomewhere(g, holder, acquired) ==>
            (holder, acquired) in edges)
  {
    LockGraphIsExactWithin(g, suppressed, depth, maxStates, holder, acquired);
    WithinAndBeyond(g, depth, holder, acquired);
  }

  /** Self-deadlocks are exact: reported only for mutexes a chain re-enters, and for all of them when no walk is cut. */
  lemma SelfDeadlocksAreExact(g: Graph, suppressed: set<Pair>, depth: int, maxStates: int, x: Name)
    ensures var findings := SelfAfter(g, suppressed, Observed(g, depth, maxStates));
      && SelfFindings(findings)
      && (Reports(findings, x) ==> (x, x) !in suppressed && NestsSomewhere(g, x, x))
      && (Uncut(g, depth, maxStates) && (x, x) !in suppressed && NestsSomewhere(g, x, x) ==> Reports(findings, x))
  {
    SelfDeadlocksAreExactWithin(g, suppressed, depth, maxStates, x);
    WithinAndBeyond(g, depth, x, x);
  }

  /** Thread attribution is exact: the origins on an edge drive it, and when no walk is cut they are all that do. */
  lemma EdgeThreadsAreExact(g: Graph, suppressed: set<Pair>, depth: int, maxStates: int, pair: Pair, o: Origin)
    requires pair in EdgesAfter(g, suppressed, Observed(g, depth, maxStates))
    ensures var edge := EdgesAfter(g, suppressed, Observed(g, depth, maxStates))[pair];
      && (o in edge.threads ==> NestsFor(g, o, pair.0, pair.1))
      && (Uncut(g, depth, maxStates) && NestsFor(g, o, pair.0, pair.1) ==> o in edge.threads)
  {
    EdgeThreadsAreExactWithin(g, suppressed, depth, maxStates, pair, o);
    DriversWithinAndBeyond(g, depth, o, pair.0, pair.1);
  }
}
