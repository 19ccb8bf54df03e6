/**
 * From a topology and the C++ call flow to the tagged graph (port_flow.py and the queries of topology_graph.py).
 */
module Topologies {
  import opened Basics
  import opened Graph

  // ---------------------------------------------------------------------------------------------
  // The flow map
  // ---------------------------------------------------------------------------------------------

  // An implementation class: the component's name with one of the four conventional suffixes, tried in order.
  datatype Class = Class(component: Name, suffix: nat)

  const SUFFIXES: nat := 4

  // What the C++ analysis recorded for one handler.
  datatype FlowRecord = FlowRecord(ports: seq<Name>, unresolvedCall: bool)

  datatype FlowMap = FlowMap(components: map<Class, map<Flow, FlowRecord>>, strict: bool)

  // Unresolved is the error a strict map raises instead of guessing.
  datatype Lookup = Outputs(ports: seq<Name>) | Unresolved

  function ComponentRecord(fm: FlowMap, component: Name, suffix: nat): Option<map<Flow, FlowRecord>>
    requires suffix <= SUFFIXES
    decreases SUFFIXES - suffix
  {
    if suffix == SUFFIXES then None
    else if Class(component, suffix) in fm.components then Some(fm.components[Class(component, suffix)])
    else ComponentRecord(fm, component, suffix + 1)
  }

  function FindRecord(fm: FlowMap, component: Name, entry: Flow): Option<FlowRecord> {
    match ComponentRecord(fm, component, 0)
    case None => None
    case Some(records) => if entry in records then Some(records[entry]) else None
  }

  /** The output ports one handler can reach. */
  function OutputsFor(fm: FlowMap, component: Name, entry: Flow, declared: seq<Name>): Lookup {
    match FindRecord(fm, component, entry)
    case Some(FlowRecord(ports, false)) => Outputs(Filter(ports, p => p in declared))
    case _ => if fm.strict then Unresolved else Outputs(declared)
  }

  // ---------------------------------------------------------------------------------------------
  // The topology
  // ---------------------------------------------------------------------------------------------

  datatype Ownership = Active | Queued | Passive

  datatype Instance = Instance(
    kind: Ownership,
    component: Name,
    inputs: map<Name, set<Kind>>,
    outputs: seq<Name>,
    cmdPort: Option<Name>,
    commands: map<Name, set<Kind>>)

  datatype Topology = Topology(instances: map<Name, Instance>, wires: map<PortKey, seq<PortKey>>)

  function KindsAt(t: Topology, port: PortKey): set<Kind> {
    if port.instance in t.instances && port.port in t.instances[port.instance].inputs then
      t.instances[port.instance].inputs[port.port]
    else {}
  }

  /** The handlers behind one input port: a command port has one per command of that dispatch kind. */
  function FlowEntries(info: Instance, port: Name, kind: Kind): seq<Flow> {
    if info.cmdPort != Some(port) then [Handler(port)]
    else Commands(Filter(Sorted(info.commands.Keys), m => m in info.commands && kind in info.commands[m]))
  }

  function Commands(mnemonics: seq<Name>): (r: seq<Flow>)
    ensures forall f :: f in r <==> f.Command? && f.mnemonic in mnemonics
  {
    if mnemonics == [] then [] else [Command(mnemonics[0])] + Commands(mnemonics[1..])
  }

  function NodesFor(instance: Name, flows: seq<Flow>): (r: seq<Node>)
    ensures forall n :: n in r <==> n.instance == instance && n.flow in flows
  {
    if flows == [] then [] else [Node(instance, flows[0])] + NodesFor(instance, flows[1..])
  }

  function EntryNodes(t: Topology, port: PortKey, kind: Kind): seq<Node> {
    if port.instance in t.instances then
      NodesFor(port.instance, FlowEntries(t.instances[port.instance], port.port, kind))
    else []
  }

  // A strict map aborts the program at an unresolved handler; here such a handler calls nothing.
  function HandlerOutputs(t: Topology, fm: FlowMap, n: Node): seq<Name> {
    if n.instance !in t.instances then []
    else
      match OutputsFor(fm, t.instances[n.instance].component, n.flow, t.instances[n.instance].outputs)
      case Outputs(ports) => ports
      case Unresolved => []
  }

  function Destinations(t: Topology, source: PortKey): seq<PortKey> {
    if source in t.wires then t.wires[source] else []
  }

  function InOrder(kinds: set<Kind>): (r: seq<Kind>)
    ensures forall k :: k in r <==> k in kinds
  {
    assert forall k: Kind :: k in ALL_KINDS by {
      forall k: Kind { AllKinds(k); }
    }
    Filter(ALL_KINDS, k => k in kinds)
  }

  function CallsInto(source: PortKey, dest: PortKey, kinds: seq<Kind>): (r: seq<Call>)
    ensures forall c :: c in r <==> c.source == source && c.dest == dest && c.kind in kinds
  {
    if kinds == [] then [] else [Call(source, dest, kinds[0])] + CallsInto(source, dest, kinds[1..])
  }

  function CallsVia(t: Topology, source: PortKey, dests: seq<PortKey>): (r: seq<Call>)
    ensures forall c :: c in r <==> c.source == source && c.dest in dests && c.kind in KindsAt(t, c.dest)
  {
    if dests == [] then []
    else CallsInto(source, dests[0], InOrder(KindsAt(t, dests[0]))) + CallsVia(t, source, dests[1..])
  }

  function CallsFrom(t: Topology, instance: Name, outs: seq<Name>): (r: seq<Call>)
    ensures forall c :: c in r <==> c.source.instance == instance && c.source.port in outs
                                    && c.dest in Destinations(t, c.source) && c.kind in KindsAt(t, c.dest)
  {
    if outs == [] then []
    else
      var source := PortKey(instance, outs[0]);
      CallsVia(t, source, Destinations(t, source)) + CallsFrom(t, instance, outs[1..])
  }

  /** Every wired call out of one handler; a port dispatched under several kinds appears once per kind. */
  function OutwardHops(t: Topology, fm: FlowMap, n: Node): seq<Call> {
    CallsFrom(t, n.instance, HandlerOutputs(t, fm, n))
  }

  // ---------------------------------------------------------------------------------------------
  // The tagged graph
  // ---------------------------------------------------------------------------------------------

  function Inputs(t: Topology): (r: set<Input>)
    ensures forall i :: i in r <==> i.1 in KindsAt(t, i.0)
  {
    set name, port, kind
      | name in t.instances && port in t.instances[name].inputs && kind in t.instances[name].inputs[port]
      :: (PortKey(name, port), kind)
  }

  function HandlersOf(t: Topology): (r: set<Node>)
    ensures forall n :: n in r <==> exists i :: i in Inputs(t) && n in EntryNodes(t, i.0, i.1)
  {
    set i, n | i in Inputs(t) && n in EntryNodes(t, i.0, i.1) :: n
  }

  function OwnThreads(t: Topology): set<Name> {
    set name | name in t.instances && t.instances[name].kind != Passive
  }

  function Connected(t: Topology): set<PortKey> {
    set source, dest | source in t.wires && dest in t.wires[source] :: dest
  }

  function HopTable(t: Topology, fm: FlowMap): map<Node, seq<Call>> {
    map n | n in HandlersOf(t) :: OutwardHops(t, fm, n)
  }

  function HandlerTable(t: Topology): map<Input, seq<Node>> {
    map i | i in Inputs(t) :: EntryNodes(t, i.0, i.1)
  }

  function RawTag(t: Topology, fm: FlowMap): RawGraph {
    RawGraph(t.instances.Keys, OwnThreads(t), Connected(t), HandlerTable(t), HopTable(t, fm))
  }

  lemma HopsLandOnInputs(t: Topology, fm: FlowMap, n: Node, c: Call)
    requires n in HandlersOf(t) && c in HopTable(t, fm)[n]
    ensures c.source.instance == n.instance && (c.dest, c.kind) in HandlerTable(t)
  {
  }

  lemma TagIsWellFormed(t: Topology, fm: FlowMap)
    ensures WellFormed(RawTag(t, fm))
  {
    forall n, c | n in HopTable(t, fm) && c in HopTable(t, fm)[n]
      ensures c.source.instance == n.instance && (c.dest, c.kind) in HandlerTable(t)
    {
      HopsLandOnInputs(t, fm, n, c);
    }
    forall i, n | i in HandlerTable(t) && n in HandlerTable(t)[i]
      ensures n.instance == i.0.instance && n in HopTable(t, fm)
    {
      assert i in Inputs(t);
    }
  }

  /** The tagged graph of a topology, given what the C++ analysis knows of its handlers. */
  function Tag(t: Topology, fm: FlowMap): Graph {
    TagIsWellFormed(t, fm);
    RawTag(t, fm)
  }

  /** The graph has a call exactly when the handler can reach the output port and the port is wired there. */
  lemma TagIsExact(t: Topology, fm: FlowMap, n: Node, c: Call)
    requires n in HandlersOf(t)
    ensures c in Calls(Tag(t, fm), n) <==>
      && c.source.instance == n.instance && c.source.port in HandlerOutputs(t, fm, n)
      && c.dest in Destinations(t, c.source) && c.kind in KindsAt(t, c.dest)
  {
  }

  // ---------------------------------------------------------------------------------------------
  // How often
  // ---------------------------------------------------------------------------------------------

  lemma {:induction false} FilterOnce<T(!new)>(s: seq<T>, keep: T -> bool)
    requires NoDup(s)
    ensures NoDup(Filter(s, keep))
  {
    if s != [] {
      assert s == [s[0]] + s[1..];
      FilterOnce(s[1..], keep);
      assert s[0] !in s[1..];
      FilterCons(s[0], s[1..], keep);
    }
  }

  lemma {:induction false} CommandsOnce(mnemonics: seq<Name>)
    requires NoDup(mnemonics)
    ensures NoDup(Commands(mnemonics))
  {
    if mnemonics != [] {
      CommandsOnce(mnemonics[1..]);
      assert Command(mnemonics[0]) !in Commands(mnemonics[1..]);
    }
  }

  lemma {:induction false} NodesOnce(instance: Name, flows: seq<Flow>)
    requires NoDup(flows)
    ensures NoDup(NodesFor(instance, flows))
  {
    if flows != [] {
      NodesOnce(instance, flows[1..]);
      assert Node(instance, flows[0]) !in NodesFor(instance, flows[1..]);
    }
  }

  lemma FlowsOnce(info: Instance, port: Name, kind: Kind)
    ensures NoDup(FlowEntries(info, port, kind))
  {
    if info.cmdPort == Some(port) {
      var keep := m => m in info.commands && kind in info.commands[m];
      FilterOnce(Sorted(info.commands.Keys), keep);
      CommandsOnce(Filter(Sorted(info.commands.Keys), keep));
    }
  }

  /**
   * One dispatch of a port runs, each once, its own handler, or if it is the command port, the handlers of the
   * commands of that kind; a port that is not dispatched that way runs none.
   */
  lemma EntriesAreExact(t: Topology, fm: FlowMap, port: PortKey, kind: Kind, n: Node)
    ensures NoDup(Entries(Tag(t, fm), port, kind))
    ensures n in Entries(Tag(t, fm), port, kind) <==>
      && kind in KindsAt(t, port) && n.instance == port.instance
      && var info := t.instances[port.instance];
        if info.cmdPort == Some(port.port) then
          n.flow.Command? && n.flow.mnemonic in info.commands && kind in info.commands[n.flow.mnemonic]
        else n.flow == Handler(port.port)
  {
    if kind in KindsAt(t, port) {
      var info := t.instances[port.instance];
      FlowsOnce(info, port.port, kind);
      NodesOnce(port.instance, FlowEntries(info, port.port, kind));
    }
  }

  lemma CountParts<T>(a: seq<T>, b: seq<T>, x: T)
    ensures multiset(a + b)[x] == multiset(a)[x] + multiset(b)[x]
  {
  }

  lemma {:induction false} CountInto(source: PortKey, dest: PortKey, kinds: seq<Kind>, c: Call)
    ensures multiset(CallsInto(source, dest, kinds))[c]
         == if c.source == source && c.dest == dest then multiset(kinds)[c.kind] else 0
  {
    if kinds != [] {
      CountInto(source, dest, kinds[1..], c);
      assert kinds == [kinds[0]] + kinds[1..];
    }
  }

  lemma KindsOnce(kinds: set<Kind>, k: Kind)
    ensures multiset(InOrder(kinds))[k] == if k in kinds then 1 else 0
  {
    FilterOnce(ALL_KINDS, x => x in kinds);
    CountOnce(InOrder(kinds), k);
  }

  lemma {:induction false} CountOnce<T>(s: seq<T>, x: T)
    requires NoDup(s)
    ensures multiset(s)[x] == if x in s then 1 else 0
  {
    if s != [] {
      assert s == [s[0]] + s[1..];
      CountOnce(s[1..], x);
      assert s[0] !in s[1..];
    }
  }

  lemma CountCons<T>(s: seq<T>, x: T)
    requires s != []
    ensures multiset(s)[x] == multiset(s[1..])[x] + if s[0] == x then 1 else 0
  {
    assert s == [s[0]] + s[1..];
  }

  lemma CountFirst(t: Topology, source: PortKey, dest: PortKey, c: Call)
    ensures multiset(CallsInto(source, dest, InOrder(KindsAt(t, dest))))[c]
         == if c.source == source && c.dest == dest && c.kind in KindsAt(t, dest) then 1 else 0
  {
    CountInto(source, dest, InOrder(KindsAt(t, dest)), c);
    KindsOnce(KindsAt(t, dest), c.kind);
  }

  lemma {:induction false} CountVia(t: Topology, source: PortKey, dests: seq<PortKey>, c: Call)
    ensures multiset(CallsVia(t, source, dests))[c]
         == if c.source == source && c.kind in KindsAt(t, c.dest) then multiset(dests)[c.dest] else 0
  {
    if dests != [] {
      CountVia(t, source, dests[1..], c);
      CountFirst(t, source, dests[0], c);
      CountParts(CallsInto(source, dests[0], InOrder(KindsAt(t, dests[0]))), CallsVia(t, source, dests[1..]), c);
      CountCons(dests, c.dest);
    }
  }

  function Times(a: nat, b: nat): nat { a * b }

  lemma MoreTimes(a: nat, b: nat, k: nat)
    ensures Times(a + b, k) == Times(a, k) + Times(b, k) && Times(0, k) == 0 && Times(1, k) == k
  {
  }

  /** How many connections lead from one of these output ports to the far end of the call, along its own source port. */
  ghost function Connections(t: Topology, instance: Name, outs: seq<Name>, c: Call): nat {
    if c.source.instance == instance then
      Times(multiset(outs)[c.source.port], multiset(Destinations(t, c.source))[c.dest])
    else 0
  }

  lemma ConnectionsCons(t: Topology, instance: Name, out: Name, outs: seq<Name>, c: Call)
    ensures Connections(t, instance, [out] + outs, c)
         == Connections(t, instance, outs, c)
            + if c.source == PortKey(instance, out) then multiset(Destinations(t, c.source))[c.dest] else 0
  {
    CountParts([out], outs, c.source.port);
    var wires := multiset(Destinations(t, c.source))[c.dest];
    MoreTimes(multiset([out])[c.source.port], multiset(outs)[c.source.port], wires);
  }

  lemma {:induction false} CountFrom(t: Topology, instance: Name, outs: seq<Name>, c: Call)
    ensures multiset(CallsFrom(t, instance, outs))[c]
         == if c.kind in KindsAt(t, c.dest) then Connections(t, instance, outs, c) else 0
  {
    if outs == [] {
      MoreTimes(0, 0, multiset(Destinations(t, c.source))[c.dest]);
    } else {
      var source, rest := PortKey(instance, outs[0]), CallsFrom(t, instance, outs[1..]);
      CountFrom(t, instance, outs[1..], c);
      CountVia(t, source, Destinations(t, source), c);
      CountParts(CallsVia(t, source, Destinations(t, source)), rest, c);
      ConnectionsCons(t, instance, outs[0], outs[1..], c);
      assert outs == [outs[0]] + outs[1..];
    }
  }

  /** A handler has one call for each connection from one of its ports, under each kind the far end is dispatched. */
  lemma HopsAreCounted(t: Topology, fm: FlowMap, n: Node, c: Call)
    requires n in HandlersOf(t)
    ensures multiset(Calls(Tag(t, fm), n))[c]
         == if c.kind in KindsAt(t, c.dest) then Connections(t, n.instance, HandlerOutputs(t, fm, n), c) else 0
  {
    HopsOf(t, fm, n);
    CountFrom(t, n.instance, HandlerOutputs(t, fm, n), c);
  }

  lemma HopsOf(t: Topology, fm: FlowMap, n: Node)
    requires n in HandlersOf(t)
    ensures Calls(Tag(t, fm), n) == CallsFrom(t, n.instance, HandlerOutputs(t, fm, n))
  {
  }

  ghost predicate Resolves(fm: FlowMap, t: Topology, n: Node) {
    n.instance in t.instances
      && OutputsFor(fm, t.instances[n.instance].component, n.flow, t.instances[n.instance].outputs).Outputs?
  }

  lemma ResolvedAlike(t: Topology, fm: FlowMap, n: Node)
    requires Resolves(fm, t, n)
    ensures HandlerOutputs(t, fm, n) == HandlerOutputs(t, fm.(strict := false), n)
  {
    SameRecords(fm, fm.(strict := false), t.instances[n.instance].component, 0);
  }

  lemma ResolvedHopsAlike(t: Topology, fm: FlowMap)
    requires forall n :: n in HandlersOf(t) ==> Resolves(fm, t, n)
    ensures HopTable(t, fm) == HopTable(t, fm.(strict := false))
  {
    var loose := fm.(strict := false);
    var a, b := HopTable(t, fm), HopTable(t, loose);
    forall n | n in HandlersOf(t) ensures a[n] == b[n] {
      ResolvedAlike(t, fm, n);
      assert a[n] == CallsFrom(t, n.instance, HandlerOutputs(t, fm, n));
    }
    assert a.Keys == b.Keys == HandlersOf(t);
  }

  /**
   * A strict map that resolves every handler, so that the program cannot abort, gives the graph a permissive one
   * does.
   */
  lemma StrictIsPermissiveWhenResolved(t: Topology, fm: FlowMap)
    requires forall n :: n in HandlersOf(t) ==> Resolves(fm, t, n)
    ensures Tag(t, fm) == Tag(t, fm.(strict := false))
  {
    ResolvedHopsAlike(t, fm);
  }

  // ---------------------------------------------------------------------------------------------
  // Precise and permissive flow maps
  // ---------------------------------------------------------------------------------------------

  /** Whatever the first map resolves, the second resolves to at least the same ports. */
  ghost predicate Finer(fm: FlowMap, coarse: FlowMap) {
    forall component, entry, declared :: AtMost(OutputsFor(fm, component, entry, declared),
                                                OutputsFor(coarse, component, entry, declared))
  }

  predicate AtMost(a: Lookup, b: Lookup) {
    a.Outputs? ==> b.Outputs? && forall p :: p in a.ports ==> p in b.ports
  }

  /** Answering every unresolved handler with all its declared outputs, or knowing no handler at all, is coarser. */
  lemma PermissiveIsCoarser(fm: FlowMap)
    ensures Finer(fm, fm.(strict := false)) && Finer(fm, FlowMap(map[], false))
  {
    forall component, entry, declared
      ensures AtMost(OutputsFor(fm, component, entry, declared),
          OutputsFor(fm.(strict := false), component, entry, declared))
      ensures AtMost(OutputsFor(fm, component, entry, declared),
          OutputsFor(FlowMap(map[], false), component, entry, declared))
    {
      SameRecords(fm, fm.(strict := false), component, 0);
      NoRecords(FlowMap(map[], false), component, 0);
    }
  }

  lemma {:induction false} SameRecords(a: FlowMap, b: FlowMap, component: Name, suffix: nat)
    requires suffix <= SUFFIXES && a.components == b.components
    ensures ComponentRecord(a, component, suffix) == ComponentRecord(b, component, suffix)
    decreases SUFFIXES - suffix
  {
    if suffix < SUFFIXES {
      SameRecords(a, b, component, suffix + 1);
    }
  }

  lemma {:induction false} NoRecords(fm: FlowMap, component: Name, suffix: nat)
    requires suffix <= SUFFIXES && fm.components == map[]
    ensures ComponentRecord(fm, component, suffix) == None
    decreases SUFFIXES - suffix
  {
    if suffix < SUFFIXES {
      NoRecords(fm, component, suffix + 1);
    }
  }

  lemma FinerOutputs(t: Topology, fm: FlowMap, coarse: FlowMap, n: Node)
    requires Finer(fm, coarse)
    ensures forall p :: p in HandlerOutputs(t, fm, n) ==> p in HandlerOutputs(t, coarse, n)
  {
    if n.instance in t.instances {
      var info := t.instances[n.instance];
      assert AtMost(OutputsFor(fm, info.component, n.flow, info.outputs),
          OutputsFor(coarse, info.component, n.flow, info.outputs));
    }
  }

  lemma FinerCall(t: Topology, fm: FlowMap, coarse: FlowMap, n: Node, c: Call)
    requires Finer(fm, coarse) && c in Calls(Tag(t, fm), n)
    ensures c in Calls(Tag(t, coarse), n)
  {
    FinerOutputs(t, fm, coarse, n);
    TagIsExact(t, fm, n, c);
    TagIsExact(t, coarse, n, c);
  }

  lemma FinerIsIncluded(t: Topology, fm: FlowMap, coarse: FlowMap)
    requires Finer(fm, coarse)
    ensures var g, h := Tag(t, fm), Tag(t, coarse);
      && g.instances == h.instances && g.ownThread == h.ownThread && g.connected == h.connected
      && g.handlers == h.handlers && forall n, c :: c in Calls(g, n) ==> c in Calls(h, n)
  {
    forall n, c | c in Calls(Tag(t, fm), n) ensures c in Calls(Tag(t, coarse), n) {
      FinerCall(t, fm, coarse, n, c);
    }
  }
}
