/**
 * Thread origins (topology_graph.py): which threads of control can invoke an input port, computed by
 * flooding forward from every seed, and the breadth-first search that explains one such answer.
 */
module Threads {
  import opened Basics
  import opened Graph

  // A real thread of an active or queued instance, a hand-written caller of an undriven port, or neither.
  datatype Origin = Thread(instance: Name) | External(port: PortKey) | Unknown

  datatype Seed = Seed(origin: Origin, port: PortKey, kind: Kind)

  predicate IsSeed(g: Graph, s: Seed) {
    (s.port, s.kind) in g.handlers &&
    match s.origin
    case Thread(name) => name == s.port.instance && name in g.ownThread && s.kind == Async
    case External(port) => port == s.port && port !in g.connected && s.kind != Async
    case Unknown => false
  }

  function Seeds(g: Graph): (r: set<Seed>)
    ensures forall s :: s in r <==> IsSeed(g, s)
  {
    (set i | i in g.handlers && IsSeed(g, Seed(Thread(i.0.instance), i.0, i.1)) :: Seed(Thread(i.0.instance), i.0, i.1))
    + (set i | i in g.handlers && IsSeed(g, Seed(External(i.0), i.0, i.1)) :: Seed(External(i.0), i.0, i.1))
  }

  /** A thread that enters `start` under `kind` gets to invoke `port` before any async hop. */
  ghost predicate Invokes(g: Graph, start: PortKey, kind: Kind, port: PortKey) {
    start == port || exists n0, calls, n, c :: InvokesVia(g, start, kind, n0, calls, n, c) && c.dest == port
  }

  ghost predicate InvokesVia(g: Graph, start: PortKey, kind: Kind, n0: Node, calls: seq<Call>, n: Node, c: Call) {
    n0 in Entries(g, start, kind) && Chain(g, n0, calls, n) && c in Calls(g, n) && c.kind != Async
  }

  /** The thread of an instance, servicing a message of its own, can make a guarded call into the port. */
  ghost predicate CallsGuarded(g: Graph, name: Name, port: PortKey) {
    exists start, n0, calls, n, c :: GuardedCallVia(g, name, start, n0, calls, n, c) && c.dest == port
  }

  ghost predicate GuardedCallVia(g: Graph, name: Name, start: PortKey, n0: Node, calls: seq<Call>, n: Node, c: Call) {
    name in g.ownThread && start.instance == name && InvokesVia(g, start, Async, n0, calls, n, c) && c.kind == Guarded
  }

  ghost predicate SeedReaches(g: Graph, s: Seed, port: PortKey) {
    IsSeed(g, s) && Invokes(g, s.port, s.kind, port)
  }

  /** The declarative answer: the origins of the seeds that reach the port, or Unknown when there is none. */
  ghost function Reaching(g: Graph, port: PortKey): set<Origin> {
    set s | s in Seeds(g) && SeedReaches(g, s, port) :: s.origin
  }

  ghost function OriginsOf(g: Graph, port: PortKey): set<Origin> {
    if Reaching(g, port) == {} then {Unknown} else Reaching(g, port)
  }

  /** A port is attributed to Unknown, and then to nothing else, exactly if no seed's thread gets to invoke it. */
  lemma UnknownIsUnreached(g: Graph, port: PortKey)
    ensures OriginsOf(g, port) != {}
    ensures Unknown in OriginsOf(g, port) <==> OriginsOf(g, port) == {Unknown}
    ensures Unknown in OriginsOf(g, port) <==> forall s :: IsSeed(g, s) ==> !Invokes(g, s.port, s.kind, port)
  {
    forall s | IsSeed(g, s) && Invokes(g, s.port, s.kind, port) ensures s.origin in Reaching(g, port) {
      assert s in Seeds(g) && SeedReaches(g, s, port);
    }
    assert Unknown !in Reaching(g, port);
  }

  lemma OwnThreadIsAttributed(g: Graph, name: Name, start: PortKey, port: PortKey)
    requires IsSeed(g, Seed(Thread(name), start, Async)) && Invokes(g, start, Async, port)
    ensures Thread(name) in OriginsOf(g, port)
  {
    var s := Seed(Thread(name), start, Async);
    assert s in Seeds(g) && SeedReaches(g, s, port);
    assert s.origin in Reaching(g, port);
  }

  lemma CallerIsAttributed(g: Graph, name: Name, port: PortKey)
    requires CallsGuarded(g, name, port)
    ensures Thread(name) in OriginsOf(g, port)
  {
    var start, n0, calls, n, c :| GuardedCallVia(g, name, start, n0, calls, n, c) && c.dest == port;
    OwnThreadIsAttributed(g, name, start, port);
  }

  function Labels(m: map<PortKey, set<Origin>>, port: PortKey): set<Origin> {
    if port in m then m[port] else {}
  }

  /** `after` is `before` with one more origin on every port of `hit`. */
  ghost predicate Labelled(before: map<PortKey, set<Origin>>, after: map<PortKey, set<Origin>>, hit: set<PortKey>,
                           origin: Origin) {
    forall p :: Labels(after, p) == Labels(before, p) + if p in hit then {origin} else {}
  }

  lemma LabelledTwice(m0: map<PortKey, set<Origin>>, m1: map<PortKey, set<Origin>>, m2: map<PortKey, set<Origin>>,
                      hit1: set<PortKey>, hit2: set<PortKey>, origin: Origin)
    requires Labelled(m0, m1, hit1, origin) && Labelled(m1, m2, hit2, origin)
    ensures Labelled(m0, m2, hit1 + hit2, origin)
  {
  }

  class OriginTable {
    const g: Graph
    var portThreads: map<PortKey, set<Origin>>
    var computed: bool

    ghost predicate Valid()
      reads this
    {
      if computed then forall p :: Labels(portThreads, p) == Reaching(g, p) else portThreads == map[]
    }

    constructor (g: Graph)
      ensures Valid() && this.g == g
    {
      this.g, portThreads, computed := g, map[], false;
    }

    method AddLabel(port: PortKey, origin: Origin)
      modifies this`portThreads
      ensures Labelled(old(portThreads), portThreads, {port}, origin)
    {
      portThreads := portThreads[port := Labels(portThreads, port) + {origin}];
    }

    /** Labels the ports one handler calls on its own thread and queues the handlers behind them. */
    method VisitCalls(node: Node, origin: Origin, waiting: seq<Node>) returns (queue: seq<Node>)
      modifies this`portThreads
      ensures Labelled(old(portThreads), portThreads, CalledPorts(Calls(g, node)), origin)
      ensures forall n :: n in queue <==> n in waiting || n in Next(g, node)
    {
      queue := waiting;
      var calls := Calls(g, node);
      for i := 0 to |calls|
        invariant Labelled(old(portThreads), portThreads, CalledPorts(calls[..i]), origin)
        invariant forall n :: n in queue <==> n in waiting || exists j :: 0 <= j < i && Enters(g, calls[j], n)
      {
        var c := calls[i];
        assert CalledPorts(calls[..i + 1]) == CalledPorts(calls[..i]) + if c.kind != Async then {c.dest} else {};
        if c.kind != Async {
          ghost var labelled := portThreads;
          AddLabel(c.dest, origin);
          LabelledTwice(old(portThreads), labelled, portThreads, CalledPorts(calls[..i]), {c.dest}, origin);
          queue := queue + Entries(g, c.dest, c.kind);
        }
        assert forall n :: Enters(g, calls[i], n) <==> c.kind != Async && n in Entries(g, c.dest, c.kind);
      }
      assert calls[..|calls|] == calls;
      assert forall n :: n in Next(g, node) <==> exists j :: 0 <= j < |calls| && Enters(g, calls[j], n);
    }

    /** Floods one seed's origin forward over sync and guarded hops. */
    method PropagateOrigin(s: Seed)
      requires IsSeed(g, s)
      modifies this`portThreads
      ensures forall p :: Labels(portThreads, p)
                          == Labels(old(portThreads), p) + if SeedReaches(g, s, p) then {s.origin} else {}
    {
      AddLabel(s.port, s.origin);
      var seen: set<Node> := {};
      var queue := Entries(g, s.port, s.kind);
      SeedsAreTouched(g, s);
      while queue != []
        invariant Labelled(old(portThreads), portThreads, Hit(g, s, seen), s.origin)
        invariant Frontier(g, s, seen, queue)
        decreases g.hops.Keys - seen, |queue|
      {
        var node := Last(queue);
        ghost var before := queue;
        queue := Init(queue);
        if node !in seen {
          ghost var labelled := portThreads;
          queue := VisitCalls(node, s.origin, queue);
          LabelledTwice(old(portThreads), labelled, portThreads, Hit(g, s, seen), CalledPorts(Calls(g, node)),
            s.origin);
          FrontierAdvances(g, s, seen, before, queue);
          seen := seen + {node};
        } else {
          FrontierShrinks(g, s, seen, before);
        }
      }
      HitIsExact(g, s, seen);
    }

    method EnsureThreadOrigins()
      requires Valid()
      modifies this
      ensures Valid() && computed
    {
      if computed {
        return;
      }
      computed := true;
      var todo := Seeds(g);
      ghost var done: set<Seed> := {};
      while todo != {}
        invariant computed && done + todo == Seeds(g)
        invariant forall p :: Labels(portThreads, p) == set s | s in done && SeedReaches(g, s, p) :: s.origin
        decreases todo
      {
        var s :| s in todo;
        ghost var earlier := done;
        ghost var labelled := portThreads;
        PropagateOrigin(s);
        todo, done := todo - {s}, done + {s};
        forall p ensures Labels(portThreads, p) == set t | t in done && SeedReaches(g, t, p) :: t.origin {
          assert Labels(labelled, p) == set t | t in earlier && SeedReaches(g, t, p) :: t.origin;
        }
      }
      assert done == Seeds(g);
    }

    /** The thread origins that can invoke one input port. */
    method ThreadsReaching(port: PortKey) returns (r: set<Origin>)
      requires Valid()
      modifies this
      ensures Valid() && r == OriginsOf(g, port)
      ensures r != {} && (Unknown in r <==> r == {Unknown})
      ensures Unknown in r <==> forall s :: IsSeed(g, s) ==> !Invokes(g, s.port, s.kind, port)
    {
      EnsureThreadOrigins();
      r := Labels(portThreads, port);
      if r == {} {
        r := {Unknown};
      }
      UnknownIsUnreached(g, port);
    }
  }

  // The ports invoked on the caller's own thread by some calls, and the handlers a call enters there.
  ghost function CalledPorts(calls: seq<Call>): set<PortKey> {
    set c | c in calls && c.kind != Async :: c.dest
  }

  ghost predicate Enters(g: Graph, c: Call, n: Node) {
    c.kind != Async && n in Entries(g, c.dest, c.kind)
  }

  ghost function Next(g: Graph, n: Node): set<Node> {
    set c, k | c in Calls(g, n) && c.kind != Async && k in Entries(g, c.dest, c.kind) :: k
  }

  ghost function Hit(g: Graph, s: Seed, seen: set<Node>): set<PortKey> {
    {s.port} + set n, c | n in seen && c in Calls(g, n) && c.kind != Async :: c.dest
  }

  /** A handler some chain of the seed's thread gets to. */
  ghost predicate Touched(g: Graph, s: Seed, n: Node) {
    exists n0, calls :: n0 in Entries(g, s.port, s.kind) && Chain(g, n0, calls, n)
  }

  /** The worklist invariant: what has been seen is closed, except for what is still queued. */
  ghost predicate Frontier(g: Graph, s: Seed, seen: set<Node>, queue: seq<Node>) {
    && seen <= g.hops.Keys
    && (forall n :: n in queue || n in seen ==> Touched(g, s, n) && n in g.hops)
    && (forall n0 :: n0 in Entries(g, s.port, s.kind) ==> n0 in seen || n0 in queue)
    && (forall n, k :: n in seen && k in Next(g, n) ==> k in seen || k in queue)
  }

  lemma SeedsAreTouched(g: Graph, s: Seed)
    requires IsSeed(g, s)
    ensures Frontier(g, s, {}, Entries(g, s.port, s.kind))
    ensures Hit(g, s, {}) == {s.port}
  {
    forall n0 | n0 in Entries(g, s.port, s.kind) ensures Touched(g, s, n0) && n0 in g.hops {
      SeedTouches(g, s, n0);
    }
  }

  lemma SeedTouches(g: Graph, s: Seed, n0: Node)
    requires IsSeed(g, s) && n0 in Entries(g, s.port, s.kind)
    ensures Touched(g, s, n0) && n0 in g.hops
  {
    assert Chain(g, n0, [], n0);
  }

  lemma FrontierShrinks(g: Graph, s: Seed, seen: set<Node>, queue: seq<Node>)
    requires Frontier(g, s, seen, queue) && queue != [] && Last(queue) in seen
    ensures Frontier(g, s, seen, Init(queue))
  {
    assert forall n :: n in queue ==> n == Last(queue) || n in Init(queue);
  }

  lemma FrontierAdvances(g: Graph, s: Seed, seen: set<Node>, queue: seq<Node>, queue': seq<Node>)
    requires Frontier(g, s, seen, queue) && queue != [] && Last(queue) !in seen
    requires forall n :: n in queue' <==> n in Init(queue) || n in Next(g, Last(queue))
    ensures Frontier(g, s, seen + {Last(queue)}, queue')
    ensures Hit(g, s, seen + {Last(queue)}) == Hit(g, s, seen) + CalledPorts(Calls(g, Last(queue)))
    ensures g.hops.Keys - (seen + {Last(queue)}) < g.hops.Keys - seen
  {
    var node := Last(queue);
    assert forall n :: n in queue ==> n == node || n in Init(queue);
    assert g.hops.Keys - (seen + {node}) == (g.hops.Keys - seen) - {node};
    NextIsTouched(g, s, node);
  }

  lemma NextIsTouched(g: Graph, s: Seed, n: Node)
    requires Touched(g, s, n)
    ensures forall k :: k in Next(g, n) ==> Touched(g, s, k) && k in g.hops
  {
    var n0, calls :| n0 in Entries(g, s.port, s.kind) && Chain(g, n0, calls, n);
    forall k | k in Next(g, n) ensures Touched(g, s, k) && k in g.hops {
      var c :| c in Calls(g, n) && c.kind != Async && k in Entries(g, c.dest, c.kind);
      ChainSnoc(g, n0, calls, n, c, k);
    }
  }

  /** Once nothing is queued, the ports hit by the handlers seen are exactly those the seed reaches. */
  lemma HitIsExact(g: Graph, s: Seed, seen: set<Node>)
    requires IsSeed(g, s) && Frontier(g, s, seen, [])
    ensures forall p :: p in Hit(g, s, seen) <==> SeedReaches(g, s, p)
  {
    forall p | p != s.port && SeedReaches(g, s, p) ensures p in Hit(g, s, seen) {
      var n0, calls, n, c :| InvokesVia(g, s.port, s.kind, n0, calls, n, c) && c.dest == p;
      forall m, d, k | m in seen && ThreadStep(g, m, d, k) ensures k in seen {
        assert k in Next(g, m);
      }
      ChainStaysInside(g, seen, n0, calls, n);
    }
    forall p | p != s.port && p in Hit(g, s, seen) ensures SeedReaches(g, s, p) {
      var n, c :| n in seen && c in Calls(g, n) && c.kind != Async && c.dest == p;
      var n0, calls :| n0 in Entries(g, s.port, s.kind) && Chain(g, n0, calls, n);
      assert InvokesVia(g, s.port, s.kind, n0, calls, n, c);
    }
  }
}
