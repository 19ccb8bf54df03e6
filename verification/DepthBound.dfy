/** The depth bound of the lock walk: exactly when a run that ends unflagged can lack an edge or a self-deadlock. */
module DepthBound {
  import opened Basics
  import opened Graph
  import opened LockOrder
  import opened Limits
  import opened LockGraph
  import opened Exactness
  import opened CycleOrder
  import opened Cycles
  import opened LockGroups
  import opened Analyzer

  // ---------------------------------------------------------------------------------------------
  // Runs that end with the flag false
  // ---------------------------------------------------------------------------------------------

  // The callback notes in `truncated` that the bound was hit, but the caller has read that flag before the walk
  // and stores it back afterwards, so the note is lost: a run cut short by the depth bound alone does not say so.

  ghost predicate Unflagged(g: Graph, depth: int, maxStates: int, maxCycles: int, edges: EdgeMap,
      findings: seq<Finding>) {
    Finished(g, {}, depth, maxStates, maxCycles, edges, findings, false) && !Build(g, depth, maxStates).truncated
  }

  /** The pair is reported: as an edge, or if it is a re-entry, as a self-deadlock. */
  ghost predicate Shows(edges: EdgeMap, findings: seq<Finding>, holder: Name, acquired: Name) {
    if holder == acquired then Reports(findings, holder) else (holder, acquired) in edges
  }

  /** No run that ends with the flag false lacks anything that nests on some chain, however deep. */
  ghost predicate MissesNothing(g: Graph, depth: int) {
    forall maxStates, maxCycles, edges, findings, holder, acquired ::
      Unflagged(g, depth, maxStates, maxCycles, edges, findings) && NestsSomewhere(g, holder, acquired)
      ==> Shows(edges, findings, holder, acquired)
  }

  /** The same about edges alone. */
  ghost predicate MissesNoEdge(g: Graph, depth: int) {
    forall maxStates, maxCycles, edges, findings, holder, acquired ::
      (Unflagged(g, depth, maxStates, maxCycles, edges, findings) && NestsSomewhere(g, holder, acquired)
       && holder != acquired) ==> Shows(edges, findings, holder, acquired)
  }

  lemma ShownIsTaken(g: Graph, depth: int, maxStates: int, maxCycles: int, edges: EdgeMap, findings: seq<Finding>,
                     holder: Name, acquired: Name)
    requires Unflagged(g, depth, maxStates, maxCycles, edges, findings)
    ensures Shows(edges, findings, holder, acquired) <==> TakenSomewhere(g, depth, holder, acquired)
  {
    if holder == acquired {
      FindingsAreSelfReports(g, {}, depth, maxStates, maxCycles, edges, findings, false, holder);
      SelfDeadlocksAreExactWithin(g, {}, depth, maxStates, holder);
    } else {
      LockGraphIsExactWithin(g, {}, depth, maxStates, holder, acquired);
    }
  }

  /** Whatever the number of mutexes: a topology in which no chain hits the bound loses nothing. */
  lemma UnhitMissesNothing(g: Graph, depth: int)
    requires !HitsBound(g, depth)
    ensures MissesNothing(g, depth)
  {
    forall maxStates, maxCycles, edges, findings, holder, acquired
      | Unflagged(g, depth, maxStates, maxCycles, edges, findings) && NestsSomewhere(g, holder, acquired)
      ensures Shows(edges, findings, holder, acquired)
    {
      WithinAndBeyond(g, depth, holder, acquired);
      ShownIsTaken(g, depth, maxStates, maxCycles, edges, findings, holder, acquired);
    }
  }

  /** A pair of different mutexes needs room for one mutex less than there are. */
  lemma RoomForEdges(g: Graph, depth: int, holder: Name, acquired: Name)
    requires Bound(depth) >= |GuardedInstances(g)| - 1 && holder != acquired && NestsSomewhere(g, holder, acquired)
    ensures TakenSomewhere(g, depth, holder, acquired)
  {
    var entry :| Nests(g, entry, holder, acquired);
    var n0, calls, n, c :| NestsVia(g, entry, n0, calls, n, c, holder, acquired);
    var held := HeldAlong([entry.instance], calls);
    assert (entry, Guarded) in g.handlers && (c.dest, Guarded) in g.handlers;
    HeldAreGuarded(g, entry.instance, n0, calls, n);
    NoDupBounded(held + [acquired], GuardedInstances(g));
    assert TakesVia(g, depth, entry, n0, calls, n, c, holder, acquired);
    assert TakenFrom(g, depth, entry, holder, acquired);
  }

  lemma RoomMissesNoEdge(g: Graph, depth: int)
    requires Bound(depth) >= |GuardedInstances(g)| - 1
    ensures MissesNoEdge(g, depth)
  {
    forall maxStates, maxCycles, edges, findings, holder, acquired
      | Unflagged(g, depth, maxStates, maxCycles, edges, findings) && NestsSomewhere(g, holder, acquired)
        && holder != acquired
      ensures Shows(edges, findings, holder, acquired)
    {
      RoomForEdges(g, depth, holder, acquired);
      ShownIsTaken(g, depth, maxStates, maxCycles, edges, findings, holder, acquired);
    }
  }

  // ---------------------------------------------------------------------------------------------
  // Every topology has limits with which the flag stays false
  // ---------------------------------------------------------------------------------------------

  /** All sequences of different names out of a set. */
  ghost function Orders(names: set<Name>): set<seq<Name>> {
    {[]} + set x, rest | x in names && rest in Orders(names - {x}) :: [x] + rest
  }

  lemma {:induction false} InOrders(names: set<Name>, c: seq<Name>)
    requires NoDup(c) && forall x :: x in c ==> x in names
    ensures c in Orders(names)
    decreases |c|
  {
    if c != [] {
      assert c[0] in c && c == [c[0]] + c[1..];
      forall x | x in c[1..] ensures x in names - {c[0]} {
        var i :| 0 <= i < |c| - 1 && c[1..][i] == x;
        assert c[i + 1] == x && x in c;
      }
      InOrders(names - {c[0]}, c[1..]);
    }
  }

  ghost function Holders(edges: set<Pair>): set<Name> {
    set e | e in edges :: e.0
  }

  lemma CycleIsAnOrder(edges: set<Pair>, c: seq<Name>)
    requires IsCycle(edges, c)
    ensures c in Orders(Holders(edges))
  {
    forall x | x in c ensures x in Holders(edges) {
      var k :| 0 <= k < |c| && c[k] == x;
      assert (c[k], NextOn(c, k)) in edges;
    }
    InOrders(Holders(edges), c);
  }

  /** No component has more elementary cycles than there are orders of the names on edges. */
  lemma CyclesAreFew(edges: set<Pair>, maxCycles: int)
    ensures CapReached(edges, maxCycles) ==> maxCycles <= |Orders(Holders(edges))|
  {
    forall cycles | NoDup(cycles) && forall c :: c in cycles ==> Canonical(edges, c)
      ensures |cycles| <= |Orders(Holders(edges))|
    {
      forall c | c in cycles ensures c in Orders(Holders(edges)) {
        CycleIsAnOrder(edges, c);
      }
      NoDupBounded(cycles, Orders(Holders(edges)));
    }
    if CapReached(edges, maxCycles) {
      var members :| Component(edges, members) && AtLeast(edges, members, maxCycles);
      var cycles :| NoDup(cycles) && |cycles| >= maxCycles
                    && forall c :: c in cycles ==> CycleInside(edges, members, c);
    }
  }

  /** With these limits no walk is truncated and no cap is reached, so every run ends with the flag false. */
  lemma EnoughIsEnough(g: Graph, depth: int) returns (maxStates: int, maxCycles: int)
    ensures !Build(g, depth, maxStates).truncated
    ensures forall edges, findings, capped ::
      Finished(g, {}, depth, maxStates, maxCycles, edges, findings, capped) ==> !capped
  {
    maxStates := HandlersBehind(g, GuardedEntries(g)) * |AllMarkers(g)| + 1;
    BuildIsAffordable(g, depth, maxStates);
    var pairs := EdgesAfter(g, {}, Observed(g, depth, maxStates)).Keys;
    maxCycles := |Orders(Holders(pairs))| + 1;
    CyclesAreFew(pairs, maxCycles);
  }

  lemma {:induction false} ListAll<T>(s: set<T>) returns (r: seq<T>)
    ensures NoDup(r) && forall x :: x in r <==> x in s
  {
    r := [];
    if x :| x in s {
      var rest := ListAll(s - {x});
      r := [x] + rest;
    }
  }

  /** The earliest ones of some cycles, any number of them. */
  lemma {:induction false} FirstFew(all: set<seq<Name>>, n: nat) returns (r: seq<seq<Name>>)
    requires n <= |all|
    ensures NoDup(r) && |r| == n && forall c :: c in r ==> c in all
    ensures forall c, d :: d in r && c in all && Earlier(c, d) ==> c in r
    decreases n
  {
    r := [];
    if n > 0 {
      var before := FirstFew(all, n - 1);
      NoDupSize(before);
      var rest := all - ToSet(before);
      if rest == {} {
        forall c | c in all ensures c in ToSet(before) {
          assert c !in rest;
        }
        SubsetSize(all, ToSet(before));
      }
      var m := EarliestExists(rest);
      r := before + [m];
      OneMoreFirst(all, before, m);
    }
  }

  lemma OneMoreFirst(all: set<seq<Name>>, before: seq<seq<Name>>, m: seq<Name>)
    requires forall c, d :: d in before && c in all && Earlier(c, d) ==> c in before
    requires m in all && forall c :: c in all && c !in before && c != m ==> Earlier(m, c)
    ensures forall c, d :: d in before + [m] && c in all && Earlier(c, d) ==> c in before + [m]
  {
    forall c, d | d in before + [m] && c in all && Earlier(c, d) ensures c in before + [m] {
      if d !in before && c !in before && c != m {
        EarlierTotal(c, m);
      }
    }
  }

  lemma FirstCyclesExist(edges: set<Pair>, members: set<Name>, cap: int) returns (cycles: seq<seq<Name>>)
    ensures FirstCycles(edges, members, cap, cycles)
  {
    var all := set c | c in Orders(Holders(edges)) && CycleInside(edges, members, c);
    forall c | CycleInside(edges, members, c) ensures c in all {
      CycleIsAnOrder(edges, c);
    }
    cycles := FirstFew(all, if |all| < AtMost(cap) then |all| else AtMost(cap));
    if |cycles| == |all| {
      NoDupSize(cycles);
      SameSizeSubset(ToSet(cycles), all);
    }
  }

  lemma SameSizeSubset<T>(a: set<T>, b: set<T>)
    requires a <= b && |a| == |b|
    ensures a == b
  {
    if a != b {
      var x :| x in b && x !in a;
      SubsetSize(a, b - {x});
    }
  }

  /** The cycle is among the first of its component. */
  ghost predicate Chosen(edges: set<Pair>, cap: int, c: seq<Name>) {
    exists members, cycles :: Component(edges, members) && Within(members, c)
                              && FirstCycles(edges, members, cap, cycles) && c in cycles
  }

  ghost predicate Lists(edges: EdgeMap, cap: int, cycles: seq<seq<Name>>) {
    && NoDup(cycles) && Ordered(cycles)
    && forall c :: c in cycles <==> Hazard(edges, c) && Chosen(edges.Keys, cap, c)
  }

  lemma ChosenAreListed(edges: EdgeMap, cap: int) returns (cycles: seq<seq<Name>>)
    ensures Lists(edges, cap, cycles)
  {
    var chosen := set c | c in Orders(Holders(edges.Keys)) && Hazard(edges, c) && Chosen(edges.Keys, cap, c);
    forall c | Hazard(edges, c) ensures c in Orders(Holders(edges.Keys)) {
      CycleIsAnOrder(edges.Keys, c);
    }
    var unsorted := ListAll(chosen);
    SortingKeepsElements(unsorted);
    cycles := SortedCycles(unsorted);
  }

  function FindingsAbout(edges: EdgeMap, cycles: seq<seq<Name>>): (r: seq<Finding>)
    ensures |r| == |cycles|
    ensures forall i :: 0 <= i < |r| ==> r[i] == Finding(Abba, cycles[i], CycleEdges(edges, cycles[i]))
  {
    seq(|cycles|, i requires 0 <= i < |cycles| => Finding(Abba, cycles[i], CycleEdges(edges, cycles[i])))
  }

  lemma AboutThese(edges: EdgeMap, cycles: seq<seq<Name>>, c: seq<Name>)
    ensures HasCycle(FindingsAbout(edges, cycles), c) <==> c in cycles
  {
    var fs := FindingsAbout(edges, cycles);
    if c in cycles {
      var i :| 0 <= i < |cycles| && cycles[i] == c;
      assert fs[i] in fs;
    }
    if f :| f in fs && f.kind == Abba && f.cycle == c {
      var i :| 0 <= i < |fs| && fs[i] == f;
    }
  }

  lemma ChosenInside(edges: EdgeMap, members: set<Name>, cap: int, cycles: seq<seq<Name>>, c: seq<Name>)
    requires Component(edges.Keys, members) && FirstCycles(edges.Keys, members, cap, cycles)
    ensures Hazard(edges, c) && Chosen(edges.Keys, cap, c) && Within(members, c) <==> c in cycles && Hazard(edges, c)
  {
    if Hazard(edges, c) && Chosen(edges.Keys, cap, c) && Within(members, c) {
      var ms, cs :| Component(edges.Keys, ms) && Within(ms, c) && FirstCycles(edges.Keys, ms, cap, cs) && c in cs;
      assert c[0] in c;
      ComponentsAreDisjoint(edges.Keys, ms, members, c[0]);
      FirstCyclesAreUnique(edges.Keys, members, cap, cs, cycles);
    }
  }

  lemma ListedAreReported(edges: EdgeMap, cap: int, cycles: seq<seq<Name>>)
    requires Lists(edges, cap, cycles)
    ensures ReportsAll(edges, cap, FindingsAbout(edges, cycles))
  {
    var added := FindingsAbout(edges, cycles);
    OrderedPrecedes(cycles);
    forall f | f in added ensures f == Finding(Abba, f.cycle, CycleEdges(edges, f.cycle)) && Hazard(edges, f.cycle) {
      var i :| 0 <= i < |added| && added[i] == f;
      assert cycles[i] in cycles;
    }
    forall members | Component(edges.Keys, members) ensures Served(edges, members, cap, added) {
      var first := FirstCyclesExist(edges.Keys, members, cap);
      forall c ensures HasCycle(added, c) && Within(members, c) <==> c in first && Hazard(edges, c) {
        AboutThese(edges, cycles, c);
        ChosenInside(edges, members, cap, first, c);
      }
      assert ReportedAmong(edges, members, first, added);
    }
  }

  /** Whatever the limits, there is a finished run. */
  lemma ARunFinishes(g: Graph, depth: int, maxStates: int, maxCycles: int) returns (edges: EdgeMap,
      findings: seq<Finding>)
    ensures Finished(g, {}, depth, maxStates, maxCycles, edges, findings, CapReached(edges.Keys, maxCycles))
  {
    edges := EdgesAfter(g, {}, Observed(g, depth, maxStates));
    var cycles := ChosenAreListed(edges, maxCycles);
    ListedAreReported(edges, maxCycles, cycles);
    findings := SelfAfter(g, {}, Observed(g, depth, maxStates)) + FindingsAbout(edges, cycles);
  }

  // ---------------------------------------------------------------------------------------------
  // The counterexample: a ring of guarded components, each calling the next
  // ---------------------------------------------------------------------------------------------

  function InPort(i: Name): PortKey { PortKey(i, 0) }
  function Runs(i: Name): Node { Node(i, Handler(0)) }

  // Position x of the ring, counted on past its end at most once.
  function Wrap(size: nat, x: nat): Name { if x < size then x else x - size }

  function ToNext(size: nat, i: Name): Call { Call(PortKey(i, 1), InPort(Wrap(size, i + 1)), Guarded) }

  function Below(size: nat): (r: set<Name>)
    ensures forall k: Name :: k in r <==> k < size
  {
    if size == 0 then {} else Below(size - 1) + {size - 1}
  }

  lemma {:induction false} BelowSize(size: nat)
    ensures |Below(size)| == size
  {
    if size > 0 {
      BelowSize(size - 1);
    }
  }

  function RingHandlers(size: nat): map<Input, seq<Node>> {
    map i | i in (set k | k in Below(size) :: (InPort(k), Guarded)) :: [Runs(i.0.instance)]
  }

  function RingHops(size: nat): map<Node, seq<Call>> {
    map n | n in (set k | k in Below(size) :: Runs(k)) :: [ToNext(size, n.instance)]
  }

  function Ring(size: nat): Graph {
    var g := RawGraph(Below(size), {}, set k | k in Below(size) :: InPort(k), RingHandlers(size), RingHops(size));
    assert WellFormed(g) by {
      forall n, c | n in g.hops && c in g.hops[n]
        ensures c.source.instance == n.instance && (c.dest, c.kind) in g.handlers
      {
        assert c == ToNext(size, n.instance) && Wrap(size, n.instance + 1) in Below(size);
      }
    }
    g
  }

  /** The only handler of each component calls the guarded port of the next. */
  ghost predicate IsRing(g: Graph, size: nat) {
    && (forall k: Name {:trigger Calls(g, Runs(k))} :: Calls(g, Runs(k)) == if k < size then [ToNext(size, k)] else [])
    && (forall k: Name {:trigger Entries(g, InPort(k), Guarded)} ::
          Entries(g, InPort(k), Guarded) == if k < size then [Runs(k)] else [])
    && (forall i :: i in g.handlers ==> i.0.instance < size && i == (InPort(i.0.instance), Guarded))
    && (forall k: Name {:trigger (InPort(k), Guarded) in g.handlers} :: k < size ==> (InPort(k), Guarded) in g.handlers)
  }

  lemma RingAt(size: nat, k: Name)
    ensures Calls(Ring(size), Runs(k)) == if k < size then [ToNext(size, k)] else []
    ensures Entries(Ring(size), InPort(k), Guarded) == if k < size then [Runs(k)] else []
    ensures k < size ==> (InPort(k), Guarded) in Ring(size).handlers
  {
    assert Runs(k) in RingHops(size) <==> k in Below(size);
    assert (InPort(k), Guarded) in RingHandlers(size) <==> k in Below(size);
  }

  lemma RingIsRing(size: nat)
    ensures IsRing(Ring(size), size)
  {
    forall k: Name
      ensures Calls(Ring(size), Runs(k)) == if k < size then [ToNext(size, k)] else []
      ensures Entries(Ring(size), InPort(k), Guarded) == if k < size then [Runs(k)] else []
      ensures k < size ==> (InPort(k), Guarded) in Ring(size).handlers
    {
      RingAt(size, k);
    }
  }

  lemma RingMutexes(size: nat)
    ensures |GuardedInstances(Ring(size))| == size
  {
    RingIsRing(size);
    var g := Ring(size);
    forall k ensures k in GuardedInstances(g) <==> k in Below(size) {
      if k in Below(size) {
        assert (InPort(k), Guarded) in g.handlers;
      }
    }
    assert GuardedInstances(g) == Below(size);
    BelowSize(size);
  }

  // `length` names of the ring, from `first` on.
  function Arc(size: nat, first: Name, length: nat): (r: seq<Name>)
    ensures |r| == length && forall i :: 0 <= i < length ==> r[i] == Wrap(size, first + i)
  {
    if length == 0 then [] else Arc(size, first, length - 1) + [Wrap(size, first + length - 1)]
  }

  predicate OnArc(size: nat, first: Name, length: nat, x: Name) {
    x < size && (first <= x < first + length || x + size < first + length)
  }

  lemma InArc(size: nat, first: Name, length: nat)
    requires first < size && length <= size
    ensures NoDup(Arc(size, first, length))
    ensures forall x: Name :: x in Arc(size, first, length) <==> OnArc(size, first, length, x)
  {
    var arc := Arc(size, first, length);
    forall x: Name | OnArc(size, first, length, x) ensures x in arc {
      var i := if first <= x < first + length then x - first else x + size - first;
      assert arc[i] == Wrap(size, first + i) == x;
    }
  }

  /** On the ring every call takes a mutex. */
  lemma {:induction false} RingHeld(g: Graph, size: nat, first: Name, calls: seq<Call>, n: Node)
    requires IsRing(g, size) && first < size && Chain(g, Runs(first), calls, n)
    ensures n.instance < size && n == Runs(n.instance) && |HeldAlong([first], calls)| == |calls| + 1
    decreases |calls|
  {
    if calls != [] {
      var m :| Chain(g, Runs(first), Init(calls), m) && ThreadStep(g, m, Last(calls), n);
      RingHeld(g, size, first, Init(calls), m);
      RingStep(g, size, m.instance, Last(calls), n);
    }
  }

  lemma RingStep(g: Graph, size: nat, k: Name, c: Call, n: Node)
    requires IsRing(g, size) && k < size && c in Calls(g, Runs(k)) && n in Entries(g, c.dest, c.kind)
    ensures c == ToNext(size, k) && n == Runs(Wrap(size, k + 1))
  {
    assert Calls(g, Runs(k)) == [ToNext(size, k)];
    assert Entries(g, InPort(Wrap(size, k + 1)), Guarded) == [Runs(Wrap(size, k + 1))];
  }

  lemma {:induction false} RingChain(g: Graph, size: nat, first: Name, calls: seq<Call>, n: Node)
    requires IsRing(g, size) && first < size && Chain(g, Runs(first), calls, n) && |calls| < size
    ensures n == Runs(Wrap(size, first + |calls|)) && HeldAlong([first], calls) == Arc(size, first, |calls| + 1)
    decreases |calls|
  {
    if calls != [] {
      var m :| Chain(g, Runs(first), Init(calls), m) && ThreadStep(g, m, Last(calls), n);
      RingChain(g, size, first, Init(calls), m);
      RingChainGrows(g, size, first, calls, m, n);
    }
  }

  lemma RingChainGrows(g: Graph, size: nat, first: Name, calls: seq<Call>, m: Node, n: Node)
    requires IsRing(g, size) && first < size && 0 < |calls| < size && ThreadStep(g, m, Last(calls), n)
    requires m == Runs(Wrap(size, first + |calls| - 1)) && HeldAlong([first], Init(calls)) == Arc(size, first, |calls|)
    ensures n == Runs(Wrap(size, first + |calls|)) && HeldAlong([first], calls) == Arc(size, first, |calls| + 1)
  {
    RingStep(g, size, Wrap(size, first + |calls| - 1), Last(calls), n);
  }

  lemma {:induction false} RingHasChain(g: Graph, size: nat, length: nat) returns (calls: seq<Call>)
    requires IsRing(g, size) && length < size
    ensures |calls| == length && Chain(g, Runs(0), calls, Runs(length))
  {
    calls := [];
    if length > 0 {
      var before := RingHasChain(g, size, length - 1);
      var c := ToNext(size, length - 1);
      assert Calls(g, Runs(length - 1)) == [c];
      assert Entries(g, InPort(length), Guarded) == [Runs(length)];
      calls := before + [c];
      ChainSnoc(g, Runs(0), before, Runs(length - 1), c, Runs(length));
    }
  }

  /**
   * After `length` calls from component 0 its mutex is held, and the next one's is taken: at the end, its own again.
   */
  lemma RingNests(size: nat, length: nat, holder: Name, acquired: Name)
    requires length < size && holder == 0 && acquired == Wrap(size, length + 1)
    ensures NestsSomewhere(Ring(size), holder, acquired)
  {
    var g := Ring(size);
    RingIsRing(size);
    var calls := RingHasChain(g, size, length);
    RingChain(g, size, 0, calls, Runs(length));
    InArc(size, 0, length + 1);
    var c := ToNext(size, length);
    assert Calls(g, Runs(length)) == [c] && Entries(g, InPort(0), Guarded) == [Runs(0)];
    assert NestsVia(g, InPort(0), Runs(0), calls, Runs(length), c, holder, acquired);
    assert Nests(g, InPort(0), holder, acquired);
  }

  lemma RingTakenVia(g: Graph, size: nat, depth: int, entry: PortKey, n0: Node, calls: seq<Call>, n: Node, c: Call,
                     holder: Name, acquired: Name)
    requires IsRing(g, size) && Bound(depth) < size && TakesVia(g, depth, entry, n0, calls, n, c, holder, acquired)
    ensures entry.instance < size && |calls| + 1 <= Bound(depth) && holder in Arc(size, entry.instance, |calls| + 1)
    ensures acquired == Wrap(size, Wrap(size, entry.instance + |calls|) + 1)
  {
    var first := entry.instance;
    assert entry == InPort(first) && Entries(g, InPort(first), Guarded) == [Runs(first)];
    RingHeld(g, size, first, calls, n);
    RingChain(g, size, first, calls, n);
    assert Calls(g, n) == [ToNext(size, n.instance)];
  }

  /** What is taken on the ring within the bound: the mutex that follows the arc of those held. */
  lemma RingTaken(g: Graph, size: nat, depth: int, holder: Name, acquired: Name) returns (first: Name, length: nat)
    requires IsRing(g, size) && Bound(depth) < size && TakenSomewhere(g, depth, holder, acquired)
    ensures first < size && 0 < length <= Bound(depth) && holder in Arc(size, first, length)
    ensures acquired == Wrap(size, Wrap(size, first + length - 1) + 1)
  {
    var entry :| TakenFrom(g, depth, entry, holder, acquired);
    first, length := RingTakenFrom(g, size, depth, entry, holder, acquired);
  }

  lemma RingTakenFrom(g: Graph, size: nat, depth: int, entry: PortKey, holder: Name, acquired: Name)
    returns (first: Name, length: nat)
    requires IsRing(g, size) && Bound(depth) < size && Takes(g, depth, entry, holder, acquired)
    ensures first < size && 0 < length <= Bound(depth) && holder in Arc(size, first, length)
    ensures acquired == Wrap(size, Wrap(size, first + length - 1) + 1)
  {
    var n0, calls, n, c :| TakesVia(g, depth, entry, n0, calls, n, c, holder, acquired);
    RingTakenVia(g, size, depth, entry, n0, calls, n, c, holder, acquired);
    first, length := entry.instance, |calls| + 1;
  }

  /** The arc of those held, seen from outside: never the mutex taken next, nor the first one when that is the last. */
  lemma NextOffArc(size: nat, first: Name, length: nat, x: Name)
    requires first < size && 0 < length < size && x == Wrap(size, Wrap(size, first + length - 1) + 1)
    ensures x !in Arc(size, first, length)
    ensures x == size - 1 && length < size - 1 ==> 0 !in Arc(size, first, length)
  {
    InArc(size, first, length);
  }

  /**
   * What the bound hides on the ring: with room for fewer mutexes than there are, every re-entry; with room for one
   * less still, the edge from the first to the last.
   */
  predicate Hidden(size: nat, depth: int, holder: Name, acquired: Name) {
    && Bound(depth) < size
    && (holder == acquired || (holder == 0 && acquired == size - 1 && Bound(depth) < size - 1))
  }

  lemma RingHides(size: nat, depth: int, holder: Name, acquired: Name)
    requires Hidden(size, depth, holder, acquired)
    ensures !TakenSomewhere(Ring(size), depth, holder, acquired)
  {
    RingIsRing(size);
    if TakenSomewhere(Ring(size), depth, holder, acquired) {
      var first, length := RingTaken(Ring(size), size, depth, holder, acquired);
      NextOffArc(size, first, length, acquired);
    }
  }

  // ---------------------------------------------------------------------------------------------
  // The exact condition
  // ---------------------------------------------------------------------------------------------

  /** A pair that nests but not within the bound is missed by a run with the flag false. */
  lemma HiddenIsMissed(g: Graph, depth: int, holder: Name, acquired: Name)
    requires NestsSomewhere(g, holder, acquired) && !TakenSomewhere(g, depth, holder, acquired)
    ensures !MissesNothing(g, depth) && (holder != acquired ==> !MissesNoEdge(g, depth))
  {
    var maxStates, maxCycles := EnoughIsEnough(g, depth);
    var edges, findings := ARunFinishes(g, depth, maxStates, maxCycles);
    assert Unflagged(g, depth, maxStates, maxCycles, edges, findings);
    ShownIsTaken(g, depth, maxStates, maxCycles, edges, findings, holder, acquired);
  }

  lemma RingMisses(size: nat, depth: int, length: nat, holder: Name, acquired: Name)
    requires length < size && holder == 0 && acquired == Wrap(size, length + 1) && Hidden(size, depth, holder, acquired)
    ensures !MissesNothing(Ring(size), depth) && (holder != acquired ==> !MissesNoEdge(Ring(size), depth))
  {
    RingNests(size, length, holder, acquired);
    RingHides(size, depth, holder, acquired);
    HiddenIsMissed(Ring(size), depth, holder, acquired);
  }

  /**
   * On the ring, and with sufficient other limits, every run ends with the flag false and without any self-deadlock.
   */
  lemma RingIsMissed(size: nat, depth: int) returns (maxStates: int, maxCycles: int)
    requires Bound(depth) < size
    ensures NestsSomewhere(Ring(size), 0, 0)
    ensures forall edges, findings, capped ::
      Finished(Ring(size), {}, depth, maxStates, maxCycles, edges, findings, capped)
      ==> Unflagged(Ring(size), depth, maxStates, maxCycles, edges, findings) && forall x :: !Reports(findings, x)
  {
    var g := Ring(size);
    maxStates, maxCycles := EnoughIsEnough(g, depth);
    RingNests(size, size - 1, 0, 0);
    forall edges, findings, capped | Finished(g, {}, depth, maxStates, maxCycles, edges, findings, capped)
      ensures Unflagged(g, depth, maxStates, maxCycles, edges, findings) && forall x :: !Reports(findings, x)
    {
      forall x ensures !Reports(findings, x) {
        RingHides(size, depth, x, x);
        ShownIsTaken(g, depth, maxStates, maxCycles, edges, findings, x, x);
      }
    }
  }

  /**
   * With room for as many mutexes as there are guarded instances, a run with the flag false has an edge or a
   * self-deadlock for everything that nests on any chain. With less room there is a topology of that size on which
   * such a run misses one: the default bound of 8 is sufficient for 8 guarded instances and not for 9.
   */
  lemma DepthBoundIsTight(depth: int, mutexes: nat)
    ensures Bound(depth) >= mutexes <==>
      forall g: Graph :: |GuardedInstances(g)| == mutexes ==> MissesNothing(g, depth)
  {
    if Bound(depth) >= mutexes {
      forall g: Graph | |GuardedInstances(g)| == mutexes ensures MissesNothing(g, depth) {
        RoomForAllIsNeverHit(g, depth);
        UnhitMissesNothing(g, depth);
      }
    } else {
      RingMutexes(mutexes);
      RingMisses(mutexes, depth, mutexes - 1, 0, 0);
    }
  }

  /** For edges alone, room for one mutex less is sufficient, and no less is. */
  lemma EdgeBoundIsTight(depth: int, mutexes: nat)
    ensures Bound(depth) >= mutexes - 1 <==>
      forall g: Graph :: |GuardedInstances(g)| == mutexes ==> MissesNoEdge(g, depth)
  {
    if Bound(depth) >= mutexes - 1 {
      forall g: Graph | |GuardedInstances(g)| == mutexes ensures MissesNoEdge(g, depth) {
        RoomMissesNoEdge(g, depth);
      }
    } else {
      RingMutexes(mutexes);
      RingMisses(mutexes, depth, mutexes - 2, 0, mutexes - 1);
    }
  }
}
