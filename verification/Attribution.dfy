/**
 * When the threads credited with an edge are real ones, in terms of the topology alone.
 *
 * The flood of thread origins labels the port it starts from. For an async port of an instance with its own thread
 * that says only that the thread takes its messages there. But a command port can be async for one command and
 * guarded for another, and then the label is read as if the thread made guarded calls into it. The results here say
 * for which topologies, and for which of them whatever the C++ code calls, no label is read wrongly: those in which
 * no instance with its own thread has such a mixed port, or else calls each of them under a guard from that thread.
 */
module Attribution {
  import opened Basics
  import opened Graph
  import opened Threads
  import opened Topologies
  import opened Driving

  /** Every real thread labelled on a guarded port can make a guarded call into it. */
  ghost predicate AttributionIsReal(g: Graph) {
    forall name, port :: (port, Guarded) in g.handlers && Thread(name) in OriginsOf(g, port) ==>
        CallsGuarded(g, name, port)
  }

  predicate IsMixedPort(t: Topology, port: PortKey) {
    port.instance in OwnThreads(t) && Async in KindsAt(t, port) && Guarded in KindsAt(t, port)
  }

  /** No instance with its own thread has a port that is dispatched both async and guarded. */
  ghost predicate NoMixedPorts(t: Topology) {
    forall port :: !IsMixedPort(t, port)
  }

  lemma TagCallsEveryKind(t: Topology, fm: FlowMap)
    ensures CallsEveryKind(Tag(t, fm))
  {
    var g := Tag(t, fm);
    forall n, c, kind: Kind | c in Calls(g, n) && (c.dest, kind) in g.handlers
      ensures c.(kind := kind) in Calls(g, n)
    {
      TagIsExact(t, fm, n, c);
      TagIsExact(t, fm, n, c.(kind := kind));
    }
  }

  lemma TagMixes(t: Topology, fm: FlowMap, name: Name, port: PortKey)
    ensures Mixed(Tag(t, fm), name, port) <==> IsMixedPort(t, port) && name == port.instance
  {
  }

  /**
   * The threads of control of a topology, by its own declarations: an active or queued instance, seeded at its async
   * ports; and the outside, at each other port that no connection leads to.
   */
  lemma SeedsOfTopology(t: Topology, fm: FlowMap, s: Seed)
    ensures s in Seeds(Tag(t, fm)) <==>
      && s.kind in KindsAt(t, s.port)
      && match s.origin
         case Thread(name) =>
           name == s.port.instance && s.kind == Async && t.instances[name].kind in {Active, Queued}
         case External(port) =>
           port == s.port && s.kind != Async && forall source :: source in t.wires ==> port !in t.wires[source]
         case Unknown => false
  {
    assert s in Seeds(Tag(t, fm)) <==> IsSeed(Tag(t, fm), s);
    assert s.kind in KindsAt(t, s.port) ==> s.port.instance in t.instances;
  }

  /** Attribution is real exactly if every mixed port is called guarded from its own instance's thread. */
  lemma AttributionIsRealWhen(t: Topology, fm: FlowMap)
    ensures AttributionIsReal(Tag(t, fm)) <==> MixedPortsAreCalled(Tag(t, fm))
  {
    var g := Tag(t, fm);
    TagCallsEveryKind(t, fm);
    forall name, port | (port, Guarded) in g.handlers
      ensures Thread(name) in OriginsOf(g, port) <==> CallsGuarded(g, name, port) || Mixed(g, name, port)
    {
      WhoIsAttributed(g, name, port);
    }
  }

  function ClassesOf(t: Topology): (r: set<Class>)
    ensures forall name :: name in t.instances ==> Class(t.instances[name].component, 0) in r
  {
    set name | name in t.instances :: Class(t.instances[name].component, 0)
  }

  function FlowsOf(nodes: set<Node>): (r: set<Flow>)
    ensures forall n :: n in nodes ==> n.flow in r
  {
    set n | n in nodes :: n.flow
  }

  /** A flow map that knows these handlers of these classes, and that they call nothing. */
  function Quiet(classes: set<Class>, flows: set<Flow>): FlowMap {
    FlowMap(map c | c in classes :: map f | f in flows :: FlowRecord([], false), true)
  }

  lemma QuietOutputs(classes: set<Class>, flows: set<Flow>, component: Name, entry: Flow, declared: seq<Name>)
    requires Class(component, 0) in classes && entry in flows
    ensures OutputsFor(Quiet(classes, flows), component, entry, declared) == Outputs([])
  {
    var fm := Quiet(classes, flows);
    assert ComponentRecord(fm, component, 0) == Some(fm.components[Class(component, 0)]);
    assert FindRecord(fm, component, entry) == Some(FlowRecord([], false));
  }

  function Silent(t: Topology): FlowMap {
    Quiet(ClassesOf(t), FlowsOf(HandlersOf(t)))
  }

  lemma SilentOutputs(t: Topology, n: Node)
    requires n in HandlersOf(t)
    ensures HandlerOutputs(t, Silent(t), n) == []
  {
    if n.instance in t.instances {
      var info := t.instances[n.instance];
      QuietOutputs(ClassesOf(t), FlowsOf(HandlersOf(t)), info.component, n.flow, info.outputs);
    }
  }

  lemma SilentCallsNothing(t: Topology, n: Node, c: Call)
    ensures c !in Calls(Tag(t, Silent(t)), n)
  {
    if n in HandlersOf(t) {
      SilentOutputs(t, n);
      TagIsExact(t, Silent(t), n, c);
    }
  }

  lemma NothingMixed(t: Topology, fm: FlowMap)
    requires NoMixedPorts(t)
    ensures MixedPortsAreCalled(Tag(t, fm))
  {
    forall name, port ensures !Mixed(Tag(t, fm), name, port) {
      TagMixes(t, fm, name, port);
    }
  }

  /** Whatever the C++ code calls, attribution is real: exactly in the topologies without mixed ports. */
  lemma AttributionIsRealWithoutMixedPorts(t: Topology)
    ensures (forall fm :: AttributionIsReal(Tag(t, fm))) <==> NoMixedPorts(t)
  {
    if NoMixedPorts(t) {
      forall fm ensures AttributionIsReal(Tag(t, fm)) {
        NothingMixed(t, fm);
        AttributionIsRealWhen(t, fm);
      }
    } else {
      var port :| IsMixedPort(t, port);
      var g := Tag(t, Silent(t));
      TagMixes(t, Silent(t), port.instance, port);
      assert !CallsGuarded(g, port.instance, port) by {
        forall n, c ensures c !in Calls(g, n) {
          SilentCallsNothing(t, n, c);
        }
      }
      AttributionIsRealWhen(t, Silent(t));
      assert !AttributionIsReal(g);
    }
  }
}
