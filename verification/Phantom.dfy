/**
 * A cycle reported for two threads of which only one ever takes a mutex: the command port of the other is mixed.
 *
 * The topology has three instances. Instance 0 is active and has a command port that takes one command async, whose
 * handler calls nothing, and another one guarded, whose handler calls a guarded port of instance 1. Instance 1 is
 * passive and has a second guarded port, whose handler calls a guarded port of instance 0. Instance 2 is active and
 * calls the command port of instance 0 and the second port of instance 1. Only its thread ever takes a mutex, in
 * either order, and a lock-order cycle that one thread alone goes around is not to be reported. But the own thread of
 * instance 0 is credited with the edge that starts at its command port, so that the cycle is.
 */
module Phantom {
  import opened Basics
  import opened Graph
  import opened Threads
  import opened Topologies
  import opened LockOrder
  import opened Limits
  import opened LockGraph
  import opened Exactness
  import opened Cycles
  import opened Analyzer
  import opened Runtime
  import opened Deadlock
  import opened Driving
  import opened Attribution
  import opened Report
  import opened DepthBound

  // ---------------------------------------------------------------------------------------------
  // What the topology is like
  // ---------------------------------------------------------------------------------------------

  // The mixed command port of instance 0, and the guarded port of instance 1 that instance 2 calls.
  const COMMAND := PortKey(0, 0)
  const RELAY := PortKey(1, 1)

  /** No message of the thread makes it call anything. */
  ghost predicate CallsNothing(g: Graph, t: Name) {
    forall port: PortKey, n, c :: port.instance == t && n in Entries(g, port, Async) ==> c !in Calls(g, n)
  }

  /**
   * Instances 0 and 2 are active, instance 1 is passive. The command port of instance 0 is mixed; what its thread
   * services calls nothing, but its guarded command calls instance 1 under a guard. The guarded port of instance 1
   * that instance 2 calls makes a guarded call back.
   */
  ghost predicate HasPhantom(g: Graph) {
    && g.ownThread == {0, 2} && GuardedInstances(g) <= {0, 1}
    && Mixed(g, 0, COMMAND) && CallsNothing(g, 0) && Nests(g, COMMAND, 0, 1)
    && CallsGuarded(g, 2, RELAY) && Nests(g, RELAY, 1, 0)
  }

  lemma PairNests(g: Graph, a: Name, b: Name)
    requires a < b && NestsUnsuppressed(g, {}, a, b) && NestsUnsuppressed(g, {}, b, a)
    ensures NestingCycle(g, {}, [a, b])
  {
    var c := [a, b];
    assert NextOn(c, 0) == b && NextOn(c, 1) == a;
    forall k | 0 <= k < |c| ensures NestsUnsuppressed(g, {}, c[k], NextOn(c, k)) {
      assert k == 0 || k == 1;
    }
  }

  lemma CycleNests(g: Graph)
    requires HasPhantom(g)
    ensures NestingCycle(g, {}, [0, 1])
  {
    assert NestsSomewhere(g, 0, 1) && NestsSomewhere(g, 1, 0);
    PairNests(g, 0, 1);
  }

  lemma BothAreCredited(g: Graph)
    requires HasPhantom(g)
    ensures TwoCredited(g, [0, 1])
  {
    CallerDrives(g, 2, RELAY, 1, 0);
    assert CreditedAt(g, [0, 1], 0, 0) && CreditedAt(g, [0, 1], 1, 2);
  }

  lemma QuietThread(g: Graph, t: Name, entry: PortKey)
    requires CallsNothing(g, t)
    ensures !CallsGuarded(g, t, entry)
  {
    if CallsGuarded(g, t, entry) {
      var start, n0, calls, n, c :| GuardedCallVia(g, t, start, n0, calls, n, c) && c.dest == entry;
      assert forall d :: d !in Calls(g, n0);
      ChainStaysInside(g, {n0}, n0, calls, n);
      assert false;
    }
  }

  /** A driver has a thread of its own that makes guarded calls. */
  lemma DriverIsAThread(g: Graph, t: Name, a: Name, b: Name)
    requires Drives(g, t, a, b)
    ensures t in g.ownThread && !CallsNothing(g, t)
  {
    DriversAreCallers(g, t, a, b);
    var entry :| CallsGuarded(g, t, entry) && Nests(g, entry, a, b);
    if CallsNothing(g, t) {
      QuietThread(g, t, entry);
    }
  }

  /** Thread 0 makes no guarded call, so it drives nothing, and there is no third thread. */
  lemma OnlyOneDrives(g: Graph, c: seq<Name>)
    requires HasPhantom(g)
    ensures !TwoThreads(g, c)
  {
    forall k, t | 0 <= k < |c| && DrivesAt(g, c, k, t) ensures t == 2 {
      DriverIsAThread(g, t, c[k], NextOn(c, k));
    }
  }

  /** In every state of every run a thread whose messages call nothing owns no mutex and waits for none. */
  lemma QuietThreadTakesNothing(g: Graph, t: Name, run: seq<State>, i: nat, m: Name)
    requires CallsNothing(g, t) && IsRun(g, run) && i < |run|
    ensures !Owns(run[i].owner, t, m) && !Waits(run[i], t)
  {
    var s := run[i];
    RunStaysConsistent(g, run, i);
    if t in s.threads && s.threads[t].Running? {
      var r := s.threads[t];
      assert ThreadOk(g, t, r);
      assert forall c :: c !in Calls(g, r.first);
      assert r.frames != [] ==> FrameOk(g, r, 0);
    }
    assert LocksOf(s, t) == [];
    assert m in LocksOf(s, t) <==> Owns(s.owner, t, m);
  }

  lemma PhantomFits(g: Graph, depth: int)
    requires HasPhantom(g) && depth >= 2
    ensures !HitsBound(g, depth)
  {
    SubsetSize(GuardedInstances(g), {0, 1});
    RoomForAllIsNeverHit(g, depth);
  }

  lemma PhantomIsAHazard(g: Graph, c: seq<Name>)
    requires HasPhantom(g) && c == [0, 1]
    ensures NestingCycle(g, {}, c) && TwoCredited(g, c) && !TwoThreads(g, c)
  {
    CycleNests(g);
    BothAreCredited(g);
    OnlyOneDrives(g, c);
  }

  /** Yet every run of the analysis that nothing cuts short reports the cycle as one that two threads drive. */
  lemma PhantomIsReported(g: Graph, depth: int, maxStates: int, maxCycles: int, edges: EdgeMap, findings: seq<Finding>,
                          c: seq<Name>)
    requires HasPhantom(g) && CallsEveryKind(g) && depth >= 2 && !Build(g, depth, maxStates).truncated && c == [0, 1]
    requires Finished(g, {}, depth, maxStates, maxCycles, edges, findings, false)
    ensures HasCycle(findings, c) && !TwoThreads(g, c)
  {
    PhantomFits(g, depth);
    PhantomIsAHazard(g, c);
    CyclesReportedAreExact(g, {}, depth, maxStates, maxCycles, edges, findings, false, c);
  }

  // ---------------------------------------------------------------------------------------------
  // Topologies like that
  // ---------------------------------------------------------------------------------------------

  /** Instances 0 and 2 are active, 1 is passive, and each has the one output 2. */
  ghost predicate ThreeInstances(t: Topology) {
    && (forall x: Name :: x in t.instances <==> x < 3)
    && t.instances[0].kind == Active && t.instances[1].kind == Passive && t.instances[2].kind == Active
    && (forall x :: x in t.instances ==> 2 in t.instances[x].outputs)
  }

  /** The command port of instance 0 is its only port that takes messages, of command 0; command 1 is guarded. */
  ghost predicate MixedCommands(t: Topology) {
    && 0 in t.instances && t.instances[0].cmdPort == Some(0)
    && 0 in t.instances[0].commands && t.instances[0].commands[0] == {Async}
    && 1 in t.instances[0].commands && t.instances[0].commands[1] == {Guarded}
    && (forall m :: m in t.instances[0].commands ==> m < 2)
    && KindsAt(t, COMMAND) == {Async, Guarded} && (forall p :: p != 0 ==> Async !in KindsAt(t, PortKey(0, p)))
  }

  /** Two guarded ports of instance 1, one more of instance 0, and one port of instance 2 that takes messages. */
  ghost predicate OtherPorts(t: Topology) {
    && 1 in t.instances && t.instances[1].cmdPort == None && 2 in t.instances && t.instances[2].cmdPort == None
    && KindsAt(t, PortKey(1, 0)) == {Guarded} && KindsAt(t, RELAY) == {Guarded}
    && KindsAt(t, PortKey(0, 1)) == {Guarded}
    && KindsAt(t, PortKey(2, 0)) == {Async} && (forall p :: Guarded !in KindsAt(t, PortKey(2, p)))
  }

  /** Instance 0 is wired to instance 1 and back, and instance 2 to both of them. */
  ghost predicate Wired(t: Topology) {
    && Destinations(t, PortKey(0, 2)) == [PortKey(1, 0)] && Destinations(t, PortKey(1, 2)) == [PortKey(0, 1)]
    && Destinations(t, PortKey(2, 2)) == [COMMAND, RELAY]
  }

  ghost predicate Records(t: Topology, fm: FlowMap, n: Node, ports: seq<Name>) {
    n.instance in t.instances
      && FindRecord(fm, t.instances[n.instance].component, n.flow) == Some(FlowRecord(ports, false))
  }

  /** Command 1, the second port of instance 1 and the port of instance 2 use the output; command 0 does not. */
  ghost predicate Recorded(t: Topology, fm: FlowMap) {
    && Records(t, fm, Node(0, Command(0)), []) && Records(t, fm, Node(0, Command(1)), [2])
    && Records(t, fm, Node(1, Handler(1)), [2]) && Records(t, fm, Node(2, Handler(0)), [2])
  }

  lemma HandlerOf(t: Topology, fm: FlowMap, port: PortKey, kind: Kind, n: Node)
    requires n in Entries(Tag(t, fm), port, kind)
    ensures n in HandlersOf(t) && n.instance == port.instance
  {
    assert (port, kind) in Inputs(t);
  }

  lemma OutputOf(t: Topology, fm: FlowMap, n: Node, ports: seq<Name>, x: Name)
    requires Records(t, fm, n, ports)
    ensures x in HandlerOutputs(t, fm, n) <==> x in ports && x in t.instances[n.instance].outputs
  {
  }

  lemma CallOf(t: Topology, fm: FlowMap, port: PortKey, kind: Kind, n: Node, ports: seq<Name>, c: Call)
    requires n in Entries(Tag(t, fm), port, kind) && Records(t, fm, n, ports)
    ensures c in Calls(Tag(t, fm), n) <==>
      && c.source.instance == n.instance && c.source.port in ports
      && c.source.port in t.instances[n.instance].outputs
      && c.dest in Destinations(t, c.source) && c.kind in KindsAt(t, c.dest)
  {
    HandlerOf(t, fm, port, kind, n);
    OutputOf(t, fm, n, ports, c.source.port);
    TagIsExact(t, fm, n, c);
  }

  /** A handler whose one output is wired to a guarded port. */
  lemma GuardedCallOf(t: Topology, fm: FlowMap, port: PortKey, kind: Kind, n: Node, dest: PortKey)
    requires n in Entries(Tag(t, fm), port, kind) && Records(t, fm, n, [2]) && 2 in t.instances[n.instance].outputs
    requires dest in Destinations(t, PortKey(n.instance, 2)) && Guarded in KindsAt(t, dest)
    ensures Call(PortKey(n.instance, 2), dest, Guarded) in Calls(Tag(t, fm), n)
  {
    CallOf(t, fm, port, kind, n, [2], Call(PortKey(n.instance, 2), dest, Guarded));
  }

  lemma NestsAtOnce(g: Graph, entry: PortKey, n: Node, c: Call)
    requires n in Entries(g, entry, Guarded) && c in Calls(g, n) && c.kind == Guarded
    requires c.dest.instance != entry.instance
    ensures Nests(g, entry, entry.instance, c.dest.instance)
  {
    assert NestsVia(g, entry, n, [], n, c, entry.instance, c.dest.instance);
  }

  lemma CallsAtOnce(g: Graph, t: Name, port: PortKey, n: Node, c: Call)
    requires t in g.ownThread && port.instance == t && n in Entries(g, port, Async) && c in Calls(g, n)
        && c.kind == Guarded
    ensures CallsGuarded(g, t, c.dest)
  {
    assert GuardedCallVia(g, t, port, n, [], n, c);
  }

  lemma CommandNests(t: Topology, fm: FlowMap)
    requires ThreeInstances(t) && MixedCommands(t) && OtherPorts(t) && Wired(t) && Recorded(t, fm)
    ensures Nests(Tag(t, fm), COMMAND, 0, 1)
  {
    var n := Node(0, Command(1));
    EntriesAreExact(t, fm, COMMAND, Guarded, n);
    GuardedCallOf(t, fm, COMMAND, Guarded, n, PortKey(1, 0));
    NestsAtOnce(Tag(t, fm), COMMAND, n, Call(PortKey(0, 2), PortKey(1, 0), Guarded));
  }

  lemma RelayNests(t: Topology, fm: FlowMap)
    requires ThreeInstances(t) && OtherPorts(t) && Wired(t) && Recorded(t, fm)
    ensures Nests(Tag(t, fm), RELAY, 1, 0)
  {
    var n := Node(1, Handler(1));
    EntriesAreExact(t, fm, RELAY, Guarded, n);
    GuardedCallOf(t, fm, RELAY, Guarded, n, PortKey(0, 1));
    NestsAtOnce(Tag(t, fm), RELAY, n, Call(PortKey(1, 2), PortKey(0, 1), Guarded));
  }

  lemma RelayIsCalled(t: Topology, fm: FlowMap)
    requires ThreeInstances(t) && OtherPorts(t) && Wired(t) && Recorded(t, fm)
    ensures CallsGuarded(Tag(t, fm), 2, RELAY)
  {
    var n, port := Node(2, Handler(0)), PortKey(2, 0);
    EntriesAreExact(t, fm, port, Async, n);
    GuardedCallOf(t, fm, port, Async, n, RELAY);
    assert 2 in Tag(t, fm).ownThread;
    CallsAtOnce(Tag(t, fm), 2, port, n, Call(PortKey(2, 2), RELAY, Guarded));
  }

  lemma EntryIsInput(t: Topology, fm: FlowMap, port: PortKey, kind: Kind, n: Node)
    requires n in Entries(Tag(t, fm), port, kind)
    ensures kind in KindsAt(t, port)
  {
    assert (port, kind) in Inputs(t);
  }

  /** Of the commands of the mixed port only command 0 is async. */
  lemma AsyncCommand(t: Topology, m: Name)
    requires MixedCommands(t) && m in t.instances[0].commands && Async in t.instances[0].commands[m]
    ensures m == 0
  {
    assert m < 2;
  }

  lemma OnlyCommandZero(t: Topology, fm: FlowMap, port: PortKey, n: Node)
    requires MixedCommands(t) && port.instance == 0 && n in Entries(Tag(t, fm), port, Async)
    ensures n == Node(0, Command(0))
  {
    EntryIsInput(t, fm, port, Async, n);
    assert port == PortKey(0, port.port) && port.port == 0;
    EntriesAreExact(t, fm, port, Async, n);
    AsyncCommand(t, n.flow.mnemonic);
  }

  lemma QuietCommand(t: Topology, fm: FlowMap, port: PortKey, n: Node, c: Call)
    requires MixedCommands(t) && Recorded(t, fm) && port.instance == 0 && n in Entries(Tag(t, fm), port, Async)
    ensures c !in Calls(Tag(t, fm), n)
  {
    OnlyCommandZero(t, fm, port, n);
    CallOf(t, fm, port, Async, n, [], c);
  }

  lemma ItsThreads(t: Topology, fm: FlowMap)
    requires ThreeInstances(t)
    ensures Tag(t, fm).ownThread == {0, 2}
  {
    forall x ensures x in OwnThreads(t) <==> x == 0 || x == 2 {
    }
  }

  lemma ItsMutexes(t: Topology, fm: FlowMap)
    requires ThreeInstances(t) && OtherPorts(t)
    ensures GuardedInstances(Tag(t, fm)) <= {0, 1}
  {
    forall x | x in GuardedInstances(Tag(t, fm)) ensures x == 0 || x == 1 {
      var i :| i in Tag(t, fm).handlers && i.1 == Guarded && i.0.instance == x;
      assert i.1 in KindsAt(t, i.0) && i.0 == PortKey(x, i.0.port);
    }
  }

  /** All of these together have the phantom. */
  lemma TopologyHasPhantom(t: Topology, fm: FlowMap)
    requires ThreeInstances(t) && MixedCommands(t) && OtherPorts(t) && Wired(t) && Recorded(t, fm)
    ensures HasPhantom(Tag(t, fm))
  {
    ItsThreads(t, fm);
    ItsMutexes(t, fm);
    TagMixes(t, fm, 0, COMMAND);
    forall port: PortKey, n, c | port.instance == 0 && n in Entries(Tag(t, fm), port, Async)
      ensures c !in Calls(Tag(t, fm), n)
    {
      QuietCommand(t, fm, port, n, c);
    }
    CommandNests(t, fm);
    RelayIsCalled(t, fm);
    RelayNests(t, fm);
  }

  // The command port of instance 0 takes command 0 async and command 1 guarded. Each instance has one output, 2.
  const COMMANDER :=
    Instance(Active, 0, map[0 := {Async, Guarded}, 1 := {Guarded}], [2], Some(0), map[0 := {Async}, 1 := {Guarded}])
  const SERVER := Instance(Passive, 1, map[0 := {Guarded}, 1 := {Guarded}], [2], None, map[])
  const CALLER := Instance(Active, 2, map[0 := {Async}], [2], None, map[])

  const WIRES := map[
    PortKey(0, 2) := [PortKey(1, 0)],
    PortKey(1, 2) := [PortKey(0, 1)],
    PortKey(2, 2) := [COMMAND, RELAY]]

  // Command 1 of instance 0, port 1 of instance 1 and port 0 of instance 2 use their output; the rest call nothing.
  const RECORDS := map[
    Class(0, 0) := map[Command(0) := FlowRecord([], false), Command(1) := FlowRecord([2], false),
                       Handler(1) := FlowRecord([], false)],
    Class(1, 0) := map[Handler(0) := FlowRecord([], false), Handler(1) := FlowRecord([2], false)],
    Class(2, 0) := map[Handler(0) := FlowRecord([2], false)]]

  function Example(): Topology {
    Topology(map[0 := COMMANDER, 1 := SERVER, 2 := CALLER], WIRES)
  }

  function Precise(): FlowMap {
    FlowMap(RECORDS, true)
  }

  lemma ExampleInstances()
    ensures ThreeInstances(Example())
  {
    forall x: Name ensures x in Example().instances <==> x < 3 {
      assert x < 3 ==> x == 0 || x == 1 || x == 2;
    }
  }

  lemma ExamplePorts()
    ensures MixedCommands(Example()) && OtherPorts(Example())
  {
  }

  lemma ExampleWires()
    ensures Wired(Example())
  {
  }

  lemma ExampleRecords()
    ensures Recorded(Example(), Precise())
  {
    assert ComponentRecord(Precise(), 0, 0) == Some(RECORDS[Class(0, 0)]);
    assert ComponentRecord(Precise(), 1, 0) == Some(RECORDS[Class(1, 0)]);
    assert ComponentRecord(Precise(), 2, 0) == Some(RECORDS[Class(2, 0)]);
  }

  /** There is such a topology, with a strict flow map that knows all its handlers. */
  lemma ExampleHasPhantom()
    ensures HasPhantom(Tag(Example(), Precise())) && CallsEveryKind(Tag(Example(), Precise()))
  {
    ExampleInstances();
    ExamplePorts();
    ExampleWires();
    ExampleRecords();
    TopologyHasPhantom(Example(), Precise());
    TagCallsEveryKind(Example(), Precise());
  }

  lemma InputOf(t: Topology, n: Node) returns (port: PortKey, kind: Kind)
    requires n in HandlersOf(t)
    ensures kind in KindsAt(t, port) && port.instance in t.instances && n.instance == port.instance
    ensures n.flow in FlowEntries(t.instances[port.instance], port.port, kind)
  {
    var i :| i in Inputs(t) && n in EntryNodes(t, i.0, i.1);
    port, kind := i.0, i.1;
  }

  /** The flow map knows every handler, so that being strict it never aborts the program. */
  lemma ExampleIsResolved(n: Node)
    requires n in HandlersOf(Example())
    ensures Resolves(Precise(), Example(), n)
  {
    var port, kind := InputOf(Example(), n);
    ResolvedByRecord(n, port, kind);
  }

  lemma FlowOf(info: Instance, port: Name, kind: Kind, f: Flow)
    requires f in FlowEntries(info, port, kind)
    ensures if info.cmdPort == Some(port) then f.Command? && f.mnemonic in info.commands else f == Handler(port)
  {
  }

  lemma CommanderFlows(port: Name, kind: Kind, f: Flow)
    requires port in COMMANDER.inputs && f in FlowEntries(COMMANDER, port, kind)
    ensures f == Command(0) || f == Command(1) || f == Handler(1)
  {
    FlowOf(COMMANDER, port, kind, f);
  }

  lemma ServerFlows(port: Name, kind: Kind, f: Flow)
    requires port in SERVER.inputs && f in FlowEntries(SERVER, port, kind)
    ensures f == Handler(0) || f == Handler(1)
  {
    FlowOf(SERVER, port, kind, f);
  }

  lemma CallerFlows(port: Name, kind: Kind, f: Flow)
    requires port in CALLER.inputs && f in FlowEntries(CALLER, port, kind)
    ensures f == Handler(0)
  {
    FlowOf(CALLER, port, kind, f);
  }

  /** The inputs of the three instances have no other handlers than these. */
  lemma SixHandlers(instance: Name, port: Name, kind: Kind, f: Flow)
    requires instance < 3 && port in Example().instances[instance].inputs
    requires f in FlowEntries(Example().instances[instance], port, kind)
    ensures f in RECORDS[Class(instance, 0)]
  {
    if instance == 0 {
      CommanderFlows(port, kind, f);
    } else if instance == 1 {
      ServerFlows(port, kind, f);
    } else {
      CallerFlows(port, kind, f);
    }
  }

  lemma RecordedFlow(instance: Name, f: Flow)
    requires instance < 3 && f in RECORDS[Class(instance, 0)]
    ensures OutputsFor(Precise(), instance, f, [2]).Outputs?
  {
    assert ComponentRecord(Precise(), instance, 0) == Some(RECORDS[Class(instance, 0)]);
    assert !RECORDS[Class(instance, 0)][f].unresolvedCall;
  }

  lemma ResolvedByRecord(n: Node, port: PortKey, kind: Kind)
    requires kind in KindsAt(Example(), port) && n.instance == port.instance < 3
    requires n.flow in FlowEntries(Example().instances[port.instance], port.port, kind)
    ensures Resolves(Precise(), Example(), n)
  {
    SixHandlers(n.instance, port.port, kind, n.flow);
    RecordedFlow(n.instance, n.flow);
  }

  /** So the analysis of some topology, with all its handlers known and nothing cut short, is wrong. */
  lemma AnAnalysisIsWrong(depth: int) returns (t: Topology, fm: FlowMap, maxStates: int, maxCycles: int,
      edges: EdgeMap, findings: seq<Finding>)
    requires depth >= 2
    ensures fm.strict && forall n :: n in HandlersOf(t) ==> Resolves(fm, t, n)
    ensures !Build(Tag(t, fm), depth, maxStates).truncated
    ensures Finished(Tag(t, fm), {}, depth, maxStates, maxCycles, edges, findings, false)
    ensures HasCycle(findings, [0, 1]) && !TwoThreads(Tag(t, fm), [0, 1])
  {
    t, fm := Example(), Precise();
    forall n | n in HandlersOf(t) ensures Resolves(fm, t, n) {
      ExampleIsResolved(n);
    }
    ExampleHasPhantom();
    maxStates, maxCycles := EnoughIsEnough(Tag(t, fm), depth);
    edges, findings := ARunFinishes(Tag(t, fm), depth, maxStates, maxCycles);
    PhantomIsReported(Tag(t, fm), depth, maxStates, maxCycles, edges, findings, [0, 1]);
  }
}
