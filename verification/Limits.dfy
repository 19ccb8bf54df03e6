/**
 * The two limits of the lock walk: how many mutexes a chain may hold, and how many states all walks may expand.
 */
module Limits {
  import opened Basics
  import opened Graph
  import opened Walk
  import opened LockOrder

  // ---------------------------------------------------------------------------------------------
  // The depth bound
  // ---------------------------------------------------------------------------------------------

  /** A chain that holds as many mutexes as the bound allows goes on to take one more. */
  ghost predicate HitsVia(g: Graph, depth: int, entry: PortKey, n0: Node, calls: seq<Call>, n: Node, c: Call) {
    var held := HeldAlong([entry.instance], calls);
    && LockChain(g, entry, n0, calls, n, held) && |held| == Bound(depth)
    && c in Calls(g, n) && c.kind == Guarded && c.dest.instance !in held
  }

  ghost predicate HitsBound(g: Graph, depth: int) {
    exists entry, n0, calls, n, c :: HitsVia(g, depth, entry, n0, calls, n, c)
  }

  /** Where the bound is never hit, it cuts no chain. */
  lemma {:induction false} NoHitNoCut(g: Graph, depth: int, entry: PortKey, n0: Node, calls: seq<Call>, n: Node)
    requires !HitsBound(g, depth) && LockChain(g, entry, n0, calls, n, HeldAlong([entry.instance], calls))
    ensures |HeldAlong([entry.instance], calls)| <= Bound(depth)
    decreases |calls|
  {
    if calls != [] {
      var c, before := Last(calls), HeldAlong([entry.instance], Init(calls));
      var m :| Chain(g, n0, Init(calls), m) && ThreadStep(g, m, c, n);
      PrefixesStayDistinct(before, if c.kind == Guarded then [c.dest.instance] else []);
      NoHitNoCut(g, depth, entry, n0, Init(calls), m);
      assert !HitsVia(g, depth, entry, n0, Init(calls), m, c);
    }
  }

  /** Then whatever nests at all, re-entries included, nests within the bound. */
  lemma NoHitNothingLost(g: Graph, depth: int, entry: PortKey, holder: Name, acquired: Name)
    requires !HitsBound(g, depth)
    ensures Takes(g, depth, entry, holder, acquired) <==> Nests(g, entry, holder, acquired)
  {
    if Takes(g, depth, entry, holder, acquired) {
      var n0, calls, n, c :| TakesVia(g, depth, entry, n0, calls, n, c, holder, acquired);
    }
    if Nests(g, entry, holder, acquired) {
      var n0, calls, n, c :| NestsVia(g, entry, n0, calls, n, c, holder, acquired);
      NoHitNoCut(g, depth, entry, n0, calls, n);
      assert TakesVia(g, depth, entry, n0, calls, n, c, holder, acquired);
    }
  }

  lemma TakenNests(g: Graph, depth: int, entry: PortKey, holder: Name, acquired: Name)
    requires Takes(g, depth, entry, holder, acquired)
    ensures Nests(g, entry, holder, acquired)
  {
    var n0, calls, n, c :| TakesVia(g, depth, entry, n0, calls, n, c, holder, acquired);
  }

  // ---------------------------------------------------------------------------------------------
  // When the callback notices
  // ---------------------------------------------------------------------------------------------

  /** The hop wanted to take one mutex more than the depth bound allows. */
  predicate DepthHit(depth: int, hop: Hop<LockStack>) {
    hop.call.kind == Guarded && hop.call.dest.instance !in hop.state && |hop.state| >= depth
  }

  ghost predicate Noticed(depth: int, log: seq<Hop<LockStack>>) {
    exists hop :: hop in log && DepthHit(depth, hop)
  }

  lemma {:induction false} InBuild(g: Graph, depth: int, entries: seq<PortKey>, budget: int, hop: Hop<LockStack>)
    returns (entry: PortKey, left: int)
    requires hop in BuildFrom(g, depth, entries, budget).log
    ensures entry in entries && hop in LockWalk(g, depth, entry, left).log
  {
    var first := LockWalk(g, depth, entries[0], budget);
    if hop in first.log {
      entry, left := entries[0], budget;
    } else {
      entry, left := InBuild(g, depth, entries[1..], first.budget, hop);
    }
  }

  lemma {:induction false} WalkInBuild(g: Graph, depth: int, entries: seq<PortKey>, budget: int, entry: PortKey)
    returns (left: int)
    requires entry in entries && !BuildFrom(g, depth, entries, budget).truncated
    ensures var walk := LockWalk(g, depth, entry, left);
      !walk.truncated && forall hop :: hop in walk.log ==> hop in BuildFrom(g, depth, entries, budget).log
  {
    if entry == entries[0] {
      left := budget;
    } else {
      left := WalkInBuild(g, depth, entries[1..], LockWalk(g, depth, entries[0], budget).budget, entry);
    }
  }

  lemma HopHits(g: Graph, depth: int, entry: PortKey, budget: int, hop: Hop<LockStack>)
    requires hop in LockWalk(g, depth, entry, budget).log && DepthHit(depth, hop)
    ensures HitsBound(g, depth)
  {
    LockWalkShowsLockHops(g, depth, entry, budget, hop);
    var n0, n :| LockHop(g, depth, hop, n0, n);
    HeldIsNotEmpty(entry.instance, Init(hop.path));
    assert HitsVia(g, depth, entry, n0, Init(hop.path), n, hop.call);
  }

  lemma HitIsShown(g: Graph, depth: int, entry: PortKey, budget: int, n0: Node, calls: seq<Call>, n: Node, c: Call)
    requires HitsVia(g, depth, entry, n0, calls, n, c) && !LockWalk(g, depth, entry, budget).truncated
    ensures Noticed(depth, LockWalk(g, depth, entry, budget).log)
  {
    var hop := ShownByLockWalk(g, depth, entry, budget, n0, calls, n, c);
    SameSize(HeldAlong([entry.instance], calls), hop.state);
    assert DepthHit(depth, hop);
  }

  lemma SameSize(a: seq<Name>, b: seq<Name>)
    requires NoDup(a) && NoDup(b) && forall x :: x in a <==> x in b
    ensures |a| == |b|
  {
    NoDupSize(a);
    NoDupSize(b);
    assert ToSet(a) == ToSet(b);
  }

  /** When no walk is truncated, the callback notices the bound exactly if some chain of the topology hits it. */
  lemma HitsAreNoticed(g: Graph, depth: int, maxStates: int)
    requires !Build(g, depth, maxStates).truncated
    ensures HitsBound(g, depth) <==> Noticed(depth, Build(g, depth, maxStates).log)
  {
    if HitsBound(g, depth) {
      var entry, n0, calls, n, c :| HitsVia(g, depth, entry, n0, calls, n, c);
      assert (entry, Guarded) in g.handlers;
      var left := WalkInBuild(g, depth, GuardedEntries(g), maxStates, entry);
      HitIsShown(g, depth, entry, left, n0, calls, n, c);
    }
    if Noticed(depth, Build(g, depth, maxStates).log) {
      var hop :| hop in Build(g, depth, maxStates).log && DepthHit(depth, hop);
      var entry, left := InBuild(g, depth, GuardedEntries(g), maxStates, hop);
      HopHits(g, depth, entry, left, hop);
    }
  }

  // ---------------------------------------------------------------------------------------------
  // As many mutexes as there are
  // ---------------------------------------------------------------------------------------------

  function GuardedInstances(g: Graph): set<Name> {
    set i | i in g.handlers && i.1 == Guarded :: i.0.instance
  }

  lemma {:induction false} HeldAreGuarded(g: Graph, first: Name, n0: Node, calls: seq<Call>, n: Node)
    requires first in GuardedInstances(g) && Chain(g, n0, calls, n)
    ensures forall x :: x in HeldAlong([first], calls) ==> x in GuardedInstances(g)
    decreases |calls|
  {
    if calls != [] {
      var m :| Chain(g, n0, Init(calls), m) && ThreadStep(g, m, Last(calls), n);
      HeldAreGuarded(g, first, n0, Init(calls), m);
      var c := Last(calls);
      if c.kind == Guarded {
        assert (c.dest, Guarded) in g.handlers;
      }
    }
  }

  /** A bound of at least the number of guarded instances is never hit. */
  lemma RoomForAllIsNeverHit(g: Graph, depth: int)
    requires Bound(depth) >= |GuardedInstances(g)|
    ensures !HitsBound(g, depth)
  {
    if entry, n0, calls, n, c :| HitsVia(g, depth, entry, n0, calls, n, c) {
      var held := HeldAlong([entry.instance], calls);
      assert (entry, Guarded) in g.handlers && entry.instance in GuardedInstances(g);
      assert (c.dest, Guarded) in g.handlers && c.dest.instance in GuardedInstances(g);
      HeldAreGuarded(g, entry.instance, n0, calls, n);
      NoDupBounded(held + [c.dest.instance], GuardedInstances(g));
    }
  }

  // ---------------------------------------------------------------------------------------------
  // The budget
  // ---------------------------------------------------------------------------------------------

  function HandlersBehind(g: Graph, entries: seq<PortKey>): nat {
    if entries == [] then 0 else |Entries(g, entries[0], Guarded)| + HandlersBehind(g, entries[1..])
  }

  /** A set of markers (handler, held mutexes) that contains every start and that no hop leaves. */
  ghost predicate MarkerSpace(g: Graph, depth: int, entries: seq<PortKey>, space: set<(Node, set<Name>)>) {
    && Enclosed(g, LockOnSet(depth), space)
    && forall e, n :: e in entries && n in Entries(g, e, Guarded) ==> (n, {e.instance}) in space
  }

  lemma {:induction false} BuildFits(g: Graph, depth: int, entries: seq<PortKey>, budget: int,
                                     space: set<(Node, set<Name>)>)
    requires MarkerSpace(g, depth, entries, space) && budget > HandlersBehind(g, entries) * |space|
    ensures !BuildFrom(g, depth, entries, budget).truncated
  {
    if entries != [] {
      var e := entries[0];
      var nodes, s0: LockStack := Entries(g, e, Guarded), [e.instance];
      LockPolicyRespectsItsKey(depth);
      assert LockPolicy(depth).key(s0) == {e.instance};
      assert HandlersBehind(g, entries) * |space|
          == |nodes| * |space| + HandlersBehind(g, entries[1..]) * |space|;
      NotNegative(HandlersBehind(g, entries[1..]), |space|);
      WalkIsAffordable(g, LockPolicy(depth), LockOnSet(depth), space, e, s0, nodes, budget);
      BuildFits(g, depth, entries[1..], LockWalk(g, depth, e, budget).budget, space);
    }
  }

  lemma NotNegative(a: nat, b: nat)
    ensures a * b >= 0
  {
  }

  /** Every handler with every set of guarded instances. */
  ghost function AllMarkers(g: Graph): set<(Node, set<Name>)> {
    set n, held | n in g.hops && held <= GuardedInstances(g) :: (n, held)
  }

  lemma AllMarkersAreASpace(g: Graph, depth: int)
    ensures MarkerSpace(g, depth, GuardedEntries(g), AllMarkers(g))
  {
    var space, onKey := AllMarkers(g), LockOnSet(depth);
    forall m, c, n | m in space && c in Calls(g, m.0) && onKey(c, m.1).Some? && n in Entries(g, c.dest, c.kind)
      ensures (n, onKey(c, m.1).value) in space
    {
      assert (c.dest, c.kind) in g.handlers && n in g.hops;
      assert onKey(c, m.1).value <= GuardedInstances(g);
    }
    forall e, n | e in GuardedEntries(g) && n in Entries(g, e, Guarded) ensures (n, {e.instance}) in space {
      assert n in g.hops && {e.instance} <= GuardedInstances(g);
    }
  }

  /** Every topology has a budget that is never exhausted: one state for each marker, once per guarded handler. */
  lemma BuildIsAffordable(g: Graph, depth: int, maxStates: int)
    requires maxStates > HandlersBehind(g, GuardedEntries(g)) * |AllMarkers(g)|
    ensures !Build(g, depth, maxStates).truncated
  {
    AllMarkersAreASpace(g, depth);
    BuildFits(g, depth, GuardedEntries(g), maxStates, AllMarkers(g));
  }
}
