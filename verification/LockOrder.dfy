/**
 * The lock policy of guarded_port_analyzer.py and what its walks observe: which mutexes are taken while
 * which others are held.
 */
module LockOrder {
  import opened Basics
  import opened Graph
  import opened Walk

  // The instance mutexes held, outermost first. A chain never holds the same mutex twice.
  type LockStack = s: seq<Name> | NoDup(s) witness []

  /** A guarded hop takes a mutex, a sync hop takes none, and an async hop ends the chain. */
  function LockDecide(depth: int, c: Call, held: LockStack): Option<LockStack> {
    match c.kind
    case Async => None
    case Sync => Some(held)
    case Guarded =>
      if c.dest.instance in held || |held| >= depth then None else Some(held + [c.dest.instance])
  }

  function LockPolicy(depth: int): Policy<LockStack, set<Name>> {
    Policy((c, held: LockStack) => LockDecide(depth, c, held), (held: LockStack) => ToSet(held))
  }

  ghost function LockOnSet(depth: int): (Call, set<Name>) -> Option<set<Name>> {
    (c: Call, held: set<Name>) =>
      match c.kind
      case Async => None
      case Sync => Some(held)
      case Guarded => if c.dest.instance in held || |held| >= depth then None else Some(held + {c.dest.instance})
  }

  /** Memoising on the set of held mutexes is sound for this policy: it never looks at their order. */
  lemma LockPolicyRespectsItsKey(depth: int)
    ensures Respects(LockPolicy(depth), LockOnSet(depth))
  {
    var p := LockPolicy(depth);
    forall c, held: LockStack
      ensures LockOnSet(depth)(c, p.key(held))
           == match p.decide(c, held) case None => None case Some(t) => Some(p.key(t))
    {
      NoDupSize(held);
      if c.kind == Guarded && c.dest.instance !in held {
        assert ToSet(held + [c.dest.instance]) == ToSet(held) + {c.dest.instance};
      }
    }
  }

  /** The mutexes held at the end of a chain that starts with some held already. */
  ghost function HeldAlong(before: seq<Name>, calls: seq<Call>): seq<Name>
    decreases |calls|
  {
    if calls == [] then before
    else HeldAlong(before, Init(calls)) + if Last(calls).kind == Guarded then [Last(calls).dest.instance] else []
  }

  function Bound(depth: int): nat { if depth < 1 then 1 else depth }

  lemma {:induction false} FollowsIsLockChain(g: Graph, depth: int, n0: Node, first: Name, calls: seq<Call>, n: Node,
                                              held: LockStack)
    ensures Follows(g, LockPolicy(depth), n0, [first], calls, n, held)
       <==> Chain(g, n0, calls, n) && held == HeldAlong([first], calls) && |held| <= Bound(depth)
    decreases |calls|
  {
    if calls == [] {
    } else {
      var c, before := Last(calls), Init(calls);
      if Follows(g, LockPolicy(depth), n0, [first], calls, n, held) {
        var m, t: LockStack :| Follows(g, LockPolicy(depth), n0, [first], before, m, t)
                               && Advances(g, LockPolicy(depth), m, t, c, n, held);
        FollowsIsLockChain(g, depth, n0, first, before, m, t);
        assert Chain(g, n0, before, m) && ThreadStep(g, m, c, n);
      }
      if Chain(g, n0, calls, n) && held == HeldAlong([first], calls) && |held| <= Bound(depth) {
        var m :| Chain(g, n0, before, m) && ThreadStep(g, m, c, n);
        var t := HeldAlong([first], before);
        PrefixesStayDistinct(t, if c.kind == Guarded then [c.dest.instance] else []);
        HeldIsNotEmpty(first, before);
        FollowsIsLockChain(g, depth, n0, first, before, m, t);
        assert c.kind == Sync ==> held == t;
        assert Advances(g, LockPolicy(depth), m, t, c, n, held);
      }
    }
  }

  lemma PrefixesStayDistinct<T>(a: seq<T>, b: seq<T>)
    requires NoDup(a + b)
    ensures NoDup(a) && forall x :: x in b ==> x !in a
  {
    assert forall i :: 0 <= i < |a| ==> (a + b)[i] == a[i];
    assert forall i :: 0 <= i < |b| ==> (a + b)[|a| + i] == b[i];
  }

  lemma {:induction false} HeldIsNotEmpty(first: Name, calls: seq<Call>)
    ensures |HeldAlong([first], calls)| >= 1 && HeldAlong([first], calls)[0] == first
    decreases |calls|
  {
    if calls != [] {
      HeldIsNotEmpty(first, Init(calls));
    }
  }

  // ---------------------------------------------------------------------------------------------
  // Nested acquisitions
  // ---------------------------------------------------------------------------------------------

  // One observation of the callback: holder's mutex is held while acquired's is taken. A chain that
  // re-enters a mutex it holds is the observation whose holder and acquired are the same.
  datatype Event = Event(holder: Name, acquired: Name, entry: PortKey, path: seq<Call>)

  function Nested(held: seq<Name>, hop: Hop<LockStack>): (r: seq<Event>)
    ensures forall e :: e in r <==>
        e.holder in held && e == Event(e.holder, hop.call.dest.instance, hop.entry, hop.path)
  {
    if held == [] then []
    else [Event(held[0], hop.call.dest.instance, hop.entry, hop.path)] + Nested(held[1..], hop)
  }

  function EventsOf(hop: Hop<LockStack>): seq<Event> {
    if hop.call.kind != Guarded then []
    else if hop.call.dest.instance in hop.state then
      [Event(hop.call.dest.instance, hop.call.dest.instance, hop.entry, hop.path)]
    else Nested(hop.state, hop)
  }

  ghost function AllEvents(log: seq<Hop<LockStack>>): seq<Event> {
    if log == [] then [] else EventsOf(log[0]) + AllEvents(log[1..])
  }

  lemma {:induction false} InAllEvents(log: seq<Hop<LockStack>>, e: Event)
    ensures e in AllEvents(log) <==> exists hop :: hop in log && e in EventsOf(hop)
  {
    if log == [] {
    } else {
      InAllEvents(log[1..], e);
      assert forall hop :: hop in log <==> hop == log[0] || hop in log[1..];
    }
  }

  lemma {:induction false} AllEventsAppend(a: seq<Hop<LockStack>>, b: seq<Hop<LockStack>>)
    ensures AllEvents(a + b) == AllEvents(a) + AllEvents(b)
  {
    if a == [] {
      assert a + b == b;
    } else {
      AllEventsAppend(a[1..], b);
      SplitHead(a, b);
      AllEventsCons(a[0], a[1..]);
      AllEventsCons(a[0], a[1..] + b);
      Regroup(EventsOf(a[0]), AllEvents(a[1..]), AllEvents(b));
    }
  }

  lemma AllEventsCons(hop: Hop<LockStack>, rest: seq<Hop<LockStack>>)
    ensures AllEvents([hop] + rest) == EventsOf(hop) + AllEvents(rest)
  {
    assert ([hop] + rest)[1..] == rest;
  }

  /** A chain from a guarded handler of the entry that never re-enters a mutex it holds, with these held at its end. */
  ghost predicate LockChain(g: Graph, entry: PortKey, n0: Node, calls: seq<Call>, n: Node, held: seq<Name>) {
    && n0 in Entries(g, entry, Guarded) && Chain(g, n0, calls, n)
    && held == HeldAlong([entry.instance], calls) && NoDup(held)
  }

  /** Such a chain goes on to take the mutex of `acquired` by the call c, while `holder`'s is held. */
  ghost predicate NestsVia(g: Graph, entry: PortKey, n0: Node, calls: seq<Call>, n: Node, c: Call,
                           holder: Name, acquired: Name) {
    var held := HeldAlong([entry.instance], calls);
    && LockChain(g, entry, n0, calls, n, held)
    && c in Calls(g, n) && c.kind == Guarded && c.dest.instance == acquired
    && holder in held && (acquired in held ==> holder == acquired)
  }

  /** The two mutexes nest, in that order, on some chain of the entry, however deep. */
  ghost predicate Nests(g: Graph, entry: PortKey, holder: Name, acquired: Name) {
    exists n0, calls, n, c :: NestsVia(g, entry, n0, calls, n, c, holder, acquired)
  }

  /** The same on a chain that stays within the depth bound. */
  ghost predicate TakesVia(g: Graph, depth: int, entry: PortKey, n0: Node, calls: seq<Call>, n: Node, c: Call,
                           holder: Name, acquired: Name) {
    NestsVia(g, entry, n0, calls, n, c, holder, acquired) && |HeldAlong([entry.instance], calls)| <= Bound(depth)
  }

  ghost predicate Takes(g: Graph, depth: int, entry: PortKey, holder: Name, acquired: Name) {
    exists n0, calls, n, c :: TakesVia(g, depth, entry, n0, calls, n, c, holder, acquired)
  }

  ghost function LockWalk(g: Graph, depth: int, entry: PortKey, budget: int): Walked<LockStack> {
    WalkChains(g, LockPolicy(depth), entry, Guarded, [entry.instance], budget)
  }

  /** The event's path is a chain that takes the acquired mutex while the holder's is held. */
  ghost predicate Evidenced(g: Graph, depth: int, e: Event) {
    e.path != [] && exists n0, n :: TakesVia(g, depth, e.entry, n0, Init(e.path), n, Last(e.path), e.holder, e.acquired)
  }

  ghost predicate LockHop(g: Graph, depth: int, hop: Hop<LockStack>, n0: Node, n: Node) {
    && hop.path != [] && Last(hop.path) == hop.call
    && n0 in Entries(g, hop.entry, Guarded) && Chain(g, n0, Init(hop.path), n) && hop.call in Calls(g, n)
    && hop.state == HeldAlong([hop.entry.instance], Init(hop.path)) && |hop.state| <= Bound(depth)
  }

  lemma LockWalkShowsLockHops(g: Graph, depth: int, entry: PortKey, budget: int, hop: Hop<LockStack>)
    requires hop in LockWalk(g, depth, entry, budget).log
    ensures hop.entry == entry && exists n0, n :: LockHop(g, depth, hop, n0, n)
  {
    var nodes, p, s0: LockStack := Entries(g, entry, Guarded), LockPolicy(depth), [entry.instance];
    WalkIsSound(g, p, entry, s0, nodes, budget);
    var n0 :| n0 in nodes && Genuine(g, p, n0, s0, entry, hop);
    var n :| Follows(g, p, n0, s0, Init(hop.path), n, hop.state) && hop.call in Calls(g, n);
    FollowsIsLockChain(g, depth, n0, entry.instance, Init(hop.path), n, hop.state);
    assert LockHop(g, depth, hop, n0, n);
  }

  lemma LockWalkIsSound(g: Graph, depth: int, entry: PortKey, budget: int, e: Event)
    requires e in AllEvents(LockWalk(g, depth, entry, budget).log)
    ensures e.entry == entry && Evidenced(g, depth, e)
  {
    InAllEvents(LockWalk(g, depth, entry, budget).log, e);
    var hop :| hop in LockWalk(g, depth, entry, budget).log && e in EventsOf(hop);
    LockWalkShowsLockHops(g, depth, entry, budget, hop);
    var n0, n :| LockHop(g, depth, hop, n0, n);
    assert TakesVia(g, depth, entry, n0, Init(e.path), n, Last(e.path), e.holder, e.acquired);
  }

  ghost predicate Occurs(events: seq<Event>, entry: PortKey, holder: Name, acquired: Name) {
    exists e :: e in events && e.entry == entry && e.holder == holder && e.acquired == acquired
  }

  lemma LockWalkIsComplete(g: Graph, depth: int, entry: PortKey, budget: int, holder: Name, acquired: Name)
    requires !LockWalk(g, depth, entry, budget).truncated && Takes(g, depth, entry, holder, acquired)
    ensures Occurs(AllEvents(LockWalk(g, depth, entry, budget).log), entry, holder, acquired)
  {
    var log := LockWalk(g, depth, entry, budget).log;
    var n0, calls, n, c :| TakesVia(g, depth, entry, n0, calls, n, c, holder, acquired);
    var hop := ShownByLockWalk(g, depth, entry, budget, n0, calls, n, c);
    var e := Event(holder, acquired, entry, hop.path);
    assert e in EventsOf(hop);
    InAllEvents(log, e);
  }

  lemma ShownByLockWalk(g: Graph, depth: int, entry: PortKey, budget: int, n0: Node, calls: seq<Call>, n: Node, c: Call)
    returns (hop: Hop<LockStack>)
    requires !LockWalk(g, depth, entry, budget).truncated
    requires n0 in Entries(g, entry, Guarded) && Chain(g, n0, calls, n) && c in Calls(g, n)
    requires NoDup(HeldAlong([entry.instance], calls)) && |HeldAlong([entry.instance], calls)| <= Bound(depth)
    ensures hop in LockWalk(g, depth, entry, budget).log && hop.entry == entry && hop.call == c
    ensures forall x :: x in hop.state <==> x in HeldAlong([entry.instance], calls)
  {
    var log := LockWalk(g, depth, entry, budget).log;
    var nodes, p, s0: LockStack := Entries(g, entry, Guarded), LockPolicy(depth), [entry.instance];
    var held: LockStack := HeldAlong([entry.instance], calls);
    LockPolicyRespectsItsKey(depth);
    WalkIsComplete(g, p, LockOnSet(depth), entry, s0, nodes, budget);
    WalkIsSound(g, p, entry, s0, nodes, budget);
    FollowsIsLockChain(g, depth, n0, entry.instance, calls, n, held);
    assert ShowsCall(p, log, n0.flow, c, p.key(held));
    hop :| hop in log && hop.entryFlow == n0.flow && hop.call == c && p.key(hop.state) == p.key(held);
    assert forall x :: x in held <==> x in ToSet(held);
    assert forall x :: x in hop.state <==> x in ToSet(hop.state);
    var k :| k in nodes && Genuine(g, p, k, s0, entry, hop);
  }

  // ---------------------------------------------------------------------------------------------
  // Every guarded entry, with one shared budget
  // ---------------------------------------------------------------------------------------------

  function GuardedPorts(g: Graph, name: Name): set<Name> {
    set i | i in g.handlers && i.0.instance == name && i.1 == Guarded :: i.0.port
  }

  function EntriesAt(name: Name, ports: seq<Name>): (r: seq<PortKey>)
    ensures forall e :: e in r <==> e.instance == name && e.port in ports
  {
    if ports == [] then [] else [PortKey(name, ports[0])] + EntriesAt(name, ports[1..])
  }

  function GuardedEntriesOf(g: Graph, names: seq<Name>): (r: seq<PortKey>)
    ensures forall e :: e in r <==> e.instance in names && (e, Guarded) in g.handlers
  {
    if names == [] then []
    else EntriesAt(names[0], Sorted(GuardedPorts(g, names[0]))) + GuardedEntriesOf(g, names[1..])
  }

  function GuardedEntries(g: Graph): (r: seq<PortKey>)
    ensures forall e :: e in r <==> (e, Guarded) in g.handlers
  {
    GuardedEntriesOf(g, Sorted(g.instances))
  }

  /** Entries come by instance, and those of one instance by port; none comes twice. */
  ghost predicate InOrderOfPorts(entries: seq<PortKey>) {
    forall i, j :: 0 <= i < j < |entries| ==>
      entries[i].instance < entries[j].instance
      || (entries[i].instance == entries[j].instance && entries[i].port < entries[j].port)
  }

  lemma {:induction false} EntriesInOrder(name: Name, ports: seq<Name>)
    requires Ascending(ports)
    ensures InOrderOfPorts(EntriesAt(name, ports))
  {
    if ports != [] {
      EntriesInOrder(name, ports[1..]);
      assert forall e :: e in EntriesAt(name, ports[1..]) ==> ports[0] < e.port;
    }
  }

  lemma {:induction false} InstancesInOrder(g: Graph, names: seq<Name>)
    requires Ascending(names)
    ensures InOrderOfPorts(GuardedEntriesOf(g, names))
  {
    if names != [] {
      InstancesInOrder(g, names[1..]);
      EntriesInOrder(names[0], Sorted(GuardedPorts(g, names[0])));
      assert forall e :: e in GuardedEntriesOf(g, names[1..]) ==> names[0] < e.instance;
    }
  }

  /** Every guarded port is walked once, in the order of instances and ports. */
  lemma GuardedEntriesAreInOrder(g: Graph)
    ensures InOrderOfPorts(GuardedEntries(g)) && forall e :: e in GuardedEntries(g) <==> (e, Guarded) in g.handlers
  {
    InstancesInOrder(g, Sorted(g.instances));
  }

  ghost function BuildFrom(g: Graph, depth: int, entries: seq<PortKey>, budget: int): (r: Walked<LockStack>)
    ensures r.budget <= budget && (budget >= 0 ==> r.budget >= 0) && (r.truncated ==> r.budget <= 0)
  {
    if entries == [] then Walked([], budget, false)
    else
      var first := LockWalk(g, depth, entries[0], budget);
      var rest := BuildFrom(g, depth, entries[1..], first.budget);
      Walked(first.log + rest.log, rest.budget, first.truncated || rest.truncated)
  }

  /** All hops the analysis is shown, over all guarded entries in order. */
  ghost function Build(g: Graph, depth: int, maxStates: int): Walked<LockStack> {
    BuildFrom(g, depth, GuardedEntries(g), maxStates)
  }

  ghost function Observed(g: Graph, depth: int, maxStates: int): seq<Event> {
    AllEvents(Build(g, depth, maxStates).log)
  }

  lemma {:induction false} BuildIsSound(g: Graph, depth: int, entries: seq<PortKey>, budget: int, e: Event)
    requires e in AllEvents(BuildFrom(g, depth, entries, budget).log)
    ensures e.entry in entries && Evidenced(g, depth, e)
  {
    if entries != [] {
      var first := LockWalk(g, depth, entries[0], budget);
      var rest := BuildFrom(g, depth, entries[1..], first.budget);
      AllEventsAppend(first.log, rest.log);
      if e in AllEvents(first.log) {
        LockWalkIsSound(g, depth, entries[0], budget, e);
      } else {
        BuildIsSound(g, depth, entries[1..], first.budget, e);
      }
    }
  }

  lemma {:induction false} BuildIsComplete(g: Graph, depth: int, entries: seq<PortKey>, budget: int, entry: PortKey,
                                           holder: Name, acquired: Name)
    requires !BuildFrom(g, depth, entries, budget).truncated
    requires entry in entries && Takes(g, depth, entry, holder, acquired)
    ensures Occurs(AllEvents(BuildFrom(g, depth, entries, budget).log), entry, holder, acquired)
  {
    var first := LockWalk(g, depth, entries[0], budget);
    var rest := BuildFrom(g, depth, entries[1..], first.budget);
    AllEventsAppend(first.log, rest.log);
    if entry == entries[0] {
      LockWalkIsComplete(g, depth, entry, budget, holder, acquired);
      var e :| e in AllEvents(first.log) && e.entry == entry && e.holder == holder && e.acquired == acquired;
      assert e in AllEvents(BuildFrom(g, depth, entries, budget).log);
    } else {
      BuildIsComplete(g, depth, entries[1..], first.budget, entry, holder, acquired);
      var e :| e in AllEvents(rest.log) && e.entry == entry && e.holder == holder && e.acquired == acquired;
      assert e in AllEvents(BuildFrom(g, depth, entries, budget).log);
    }
  }
}
