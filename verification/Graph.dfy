/**
 * The tagged graph every analysis walks: which handlers one dispatch of an input port runs, and which
 * wired calls each handler can make. A call made synchronously or under a guard continues on the calling
 * thread; an asynchronous one ends its chain.
 */
module Graph {
  import opened Basics

  // How an input port is dispatched.
  datatype Kind = Sync | Guarded | Async

  const ALL_KINDS := [Async, Guarded, Sync]

  lemma AllKinds(k: Kind)
    ensures k in ALL_KINDS
  {
    match k
    case Async => assert ALL_KINDS[0] == k;
    case Guarded => assert ALL_KINDS[1] == k;
    case Sync => assert ALL_KINDS[2] == k;
  }

  datatype PortKey = PortKey(instance: Name, port: Name)

  // A handler key of the flow map: an input port, or one command behind the command port.
  datatype Flow = Handler(port: Name) | Command(mnemonic: Name)

  // A handler of one instance.
  datatype Node = Node(instance: Name, flow: Flow)

  // One call out of a handler, and how the far end takes it.
  datatype Call = Call(source: PortKey, dest: PortKey, kind: Kind)

  type Input = (PortKey, Kind)

  // `handlers` has one key for every input port and every kind that port is dispatched under.
  // `connected` holds the input ports something in the topology drives.
  datatype RawGraph = RawGraph(
    instances: set<Name>,
    ownThread: set<Name>,
    connected: set<PortKey>,
    handlers: map<Input, seq<Node>>,
    hops: map<Node, seq<Call>>)

  ghost predicate WellFormed(g: RawGraph) {
    && g.ownThread <= g.instances
    && (forall i :: i in g.handlers ==> i.0.instance in g.instances)
    && (forall i, n :: i in g.handlers && n in g.handlers[i] ==> n.instance == i.0.instance && n in g.hops)
    && (forall n, c :: n in g.hops && c in g.hops[n] ==>
        c.source.instance == n.instance && (c.dest, c.kind) in g.handlers)
  }

  type Graph = g: RawGraph | WellFormed(g) witness RawGraph({}, {}, {}, map[], map[])

  function Calls(g: Graph, n: Node): seq<Call> {
    if n in g.hops then g.hops[n] else []
  }

  function Entries(g: Graph, port: PortKey, kind: Kind): seq<Node> {
    if (port, kind) in g.handlers then g.handlers[(port, kind)] else []
  }

  ghost predicate ThreadStep(g: Graph, m: Node, c: Call, n: Node) {
    c in Calls(g, m) && c.kind != Async && n in Entries(g, c.dest, c.kind)
  }

  /**
   * A chain of calls on one thread: it starts in handler n0, every call is wired out of the handler
   * reached so far, none is async, and the last one lands in handler n.
   */
  ghost predicate Chain(g: Graph, n0: Node, calls: seq<Call>, n: Node)
    decreases |calls|
  {
    if calls == [] then n == n0
    else exists m :: Chain(g, n0, Init(calls), m) && ThreadStep(g, m, Last(calls), n)
  }

  lemma ChainSnoc(g: Graph, n0: Node, calls: seq<Call>, m: Node, c: Call, n: Node)
    requires Chain(g, n0, calls, m) && ThreadStep(g, m, c, n)
    ensures Chain(g, n0, calls + [c], n)
  {
    assert Init(calls + [c]) == calls;
  }

  lemma {:induction false} ChainAppend(g: Graph, a: Node, left: seq<Call>, b: Node, right: seq<Call>, c: Node)
    requires Chain(g, a, left, b) && Chain(g, b, right, c)
    ensures Chain(g, a, left + right, c)
    decreases |right|
  {
    if right == [] {
      assert left + right == left;
    } else {
      var m :| Chain(g, b, Init(right), m) && ThreadStep(g, m, Last(right), c);
      var whole := left + right;
      assert Init(whole) == left + Init(right) && Last(whole) == Last(right);
      ChainAppend(g, a, left, b, Init(right), m);
    }
  }

  lemma ChainCons(g: Graph, m: Node, c: Call, n0: Node, calls: seq<Call>, n: Node)
    requires ThreadStep(g, m, c, n0) && Chain(g, n0, calls, n)
    ensures Chain(g, m, [c] + calls, n)
  {
    assert Init([c]) == [] && Chain(g, m, [], m);
    ChainAppend(g, m, [c], n0, calls, n);
  }

  /** A set of handlers closed under thread steps cannot be left by a chain. */
  lemma {:induction false} ChainStaysInside(g: Graph, inside: set<Node>, n0: Node, calls: seq<Call>, n: Node)
    requires n0 in inside && Chain(g, n0, calls, n)
    requires forall m, c, k :: m in inside && ThreadStep(g, m, c, k) ==> k in inside
    ensures n in inside
    decreases |calls|
  {
    if calls == [] {
    } else {
      var m :| Chain(g, n0, Init(calls), m) && ThreadStep(g, m, Last(calls), n);
      ChainStaysInside(g, inside, n0, Init(calls), m);
    }
  }
}
