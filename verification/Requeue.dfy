/**
 * Self re-queue priority drops (async_queue_analyzer.py): a second policy over the same walk. It carries no state,
 * follows sync and guarded hops, and stops at async hops after looking where they go.
 */
module Requeue {
  import opened Basics
  import opened Graph
  import opened Walk
  import opened Traversals

  // Work that arrives on `from` is queued again on `to`, a port of the same instance with a lower priority.
  datatype Drop = Drop(from: PortKey, to: PortKey, fromPriority: int, toPriority: int, trace: seq<Call>)

  const DEFAULT_PORT_PRIORITY := 0
  const DEFAULT_MAX_STATES := 500000

  type Priorities = map<PortKey, int>

  /** A port without a declared priority has priority 0. */
  ghost predicate HasPriority(priorities: Priorities, port: PortKey, x: int) {
    (port in priorities ==> x == priorities[port]) && (port !in priorities ==> x == 0)
  }

  function PriorityOf(priorities: Priorities, port: PortKey): (x: int)
    ensures HasPriority(priorities, port, x)
  {
    if port in priorities then priorities[port] else DEFAULT_PORT_PRIORITY
  }

  function FollowPolicy(): Policy<(), ()> {
    Policy((c: Call, s: ()) => if c.kind == Async then None else Some(s), (s: ()) => s)
  }

  ghost function FollowOnKey(): (Call, ()) -> Option<()> {
    (c: Call, s: ()) => if c.kind == Async then None else Some(s)
  }

  lemma {:induction false} FollowsIsChain(g: Graph, n0: Node, calls: seq<Call>, n: Node)
    ensures Follows(g, FollowPolicy(), n0, (), calls, n, ()) <==> Chain(g, n0, calls, n)
    decreases |calls|
  {
    if calls != [] {
      if Follows(g, FollowPolicy(), n0, (), calls, n, ()) {
        var m, t :| Follows(g, FollowPolicy(), n0, (), Init(calls), m, t)
                    && Advances(g, FollowPolicy(), m, t, Last(calls), n, ());
        FollowsIsChain(g, n0, Init(calls), m);
        assert Chain(g, n0, Init(calls), m) && ThreadStep(g, m, Last(calls), n);
      }
      if Chain(g, n0, calls, n) {
        var m :| Chain(g, n0, Init(calls), m) && ThreadStep(g, m, Last(calls), n);
        FollowsIsChain(g, n0, Init(calls), m);
        assert Advances(g, FollowPolicy(), m, (), Last(calls), n, ());
      }
    }
  }

  /** A call back onto the queue the chain started on, at a lower priority. */
  ghost predicate QueuesLower(priorities: Priorities, from: PortKey, c: Call) {
    && c.kind == Async && c.dest.instance == from.instance
    && forall x, y :: HasPriority(priorities, from, x) && HasPriority(priorities, c.dest, y) ==> y < x
  }

  predicate Lower(priorities: Priorities, from: PortKey, c: Call): (r: bool)
    ensures r <==> QueuesLower(priorities, from, c)
  {
    assert HasPriority(priorities, from, PriorityOf(priorities, from));
    assert HasPriority(priorities, c.dest, PriorityOf(priorities, c.dest));
    c.kind == Async && c.dest.instance == from.instance && PriorityOf(priorities, c.dest) < PriorityOf(priorities, from)
  }

  /** Some chain of the handlers behind the async port ends in such a call. */
  ghost predicate Drops(g: Graph, priorities: Priorities, from: PortKey, to: PortKey) {
    exists n0, calls, n, c :: DropsVia(g, priorities, from, n0, calls, n, c) && c.dest == to
  }

  ghost predicate DropsVia(g: Graph, priorities: Priorities, from: PortKey, n0: Node, calls: seq<Call>,
      n: Node, c: Call) {
    n0 in Entries(g, from, Async) && Chain(g, n0, calls, n) && c in Calls(g, n) && QueuesLower(priorities, from, c)
  }

  ghost function FollowWalk(g: Graph, from: PortKey): Walked<()> {
    WalkChains(g, FollowPolicy(), from, Async, (), DEFAULT_MAX_STATES)
  }

  ghost predicate ShownIn(priorities: Priorities, from: PortKey, to: PortKey, log: seq<Hop<()>>) {
    exists hop :: hop in log && Lower(priorities, from, hop.call) && hop.call.dest == to
  }

  lemma ShownIsDrop(g: Graph, priorities: Priorities, from: PortKey, to: PortKey)
    requires ShownIn(priorities, from, to, FollowWalk(g, from).log)
    ensures Drops(g, priorities, from, to)
  {
    var hop :| hop in FollowWalk(g, from).log && Lower(priorities, from, hop.call) && hop.call.dest == to;
    var n0, n := HopIsChain(g, from, hop);
    assert DropsVia(g, priorities, from, n0, Init(hop.path), n, hop.call);
  }

  lemma HopIsChain(g: Graph, from: PortKey, hop: Hop<()>) returns (n0: Node, n: Node)
    requires hop in FollowWalk(g, from).log
    ensures hop.path != [] && Last(hop.path) == hop.call
    ensures n0 in Entries(g, from, Async) && Chain(g, n0, Init(hop.path), n) && hop.call in Calls(g, n)
  {
    WalkIsSound(g, FollowPolicy(), from, (), Entries(g, from, Async), DEFAULT_MAX_STATES);
    n0 :| n0 in Entries(g, from, Async) && Genuine(g, FollowPolicy(), n0, (), from, hop);
    n :| Follows(g, FollowPolicy(), n0, (), Init(hop.path), n, hop.state) && hop.call in Calls(g, n);
    assert hop.state == ();
    FollowsIsChain(g, n0, Init(hop.path), n);
  }

  lemma DropIsShown(g: Graph, priorities: Priorities, from: PortKey, to: PortKey)
    requires !FollowWalk(g, from).truncated && Drops(g, priorities, from, to)
    ensures ShownIn(priorities, from, to, FollowWalk(g, from).log)
  {
    var n0, calls, n, c :| DropsVia(g, priorities, from, n0, calls, n, c) && c.dest == to;
    WalkIsComplete(g, FollowPolicy(), FollowOnKey(), from, (), Entries(g, from, Async), DEFAULT_MAX_STATES);
    FollowsIsChain(g, n0, calls, n);
    assert ShowsCall(FollowPolicy(), FollowWalk(g, from).log, n0.flow, c, ());
  }

  function AsyncPorts(g: Graph, name: Name): set<Name> {
    set i | i in g.handlers && i.0.instance == name && i.1 == Async :: i.0.port
  }

  // ---------------------------------------------------------------------------------------------
  // The report
  // ---------------------------------------------------------------------------------------------

  ghost predicate Reported(drops: seq<Drop>, from: PortKey, to: PortKey) {
    exists d :: d in drops && d.from == from && d.to == to
  }

  /** The trace of a drop is a chain from where the work arrived that ends in the call that queues it again. */
  ghost predicate Traced(g: Graph, priorities: Priorities, d: Drop) {
    d.trace != [] && Last(d.trace).dest == d.to
    && exists n0, n :: DropsVia(g, priorities, d.from, n0, Init(d.trace), n, Last(d.trace))
  }

  /** The hop at this position of the log is the first one that shows the drop. */
  ghost predicate FirstShownAt(priorities: Priorities, d: Drop, log: seq<Hop<()>>, i: nat) {
    && i < |log| && log[i].path == d.trace && log[i].call.dest == d.to && QueuesLower(priorities, d.from, log[i].call)
    && forall j :: 0 <= j < i && log[j].call.dest == d.to ==> !QueuesLower(priorities, d.from, log[j].call)
  }

  ghost predicate FirstShown(g: Graph, priorities: Priorities, d: Drop) {
    exists i :: FirstShownAt(priorities, d, FollowWalk(g, d.from).log, i)
  }

  lemma IsFirstShown(g: Graph, priorities: Priorities, log: seq<Hop<()>>, i: nat, d: Drop)
    requires i < |log| && log == FollowWalk(g, d.from).log && !ShownIn(priorities, d.from, d.to, log[..i])
    requires log[i].path == d.trace && log[i].call.dest == d.to && Lower(priorities, d.from, log[i].call)
    ensures FirstShown(g, priorities, d)
  {
    forall j | 0 <= j < i && log[j].call.dest == d.to ensures !QueuesLower(priorities, d.from, log[j].call) {
      assert log[j] in log[..i];
    }
    assert FirstShownAt(priorities, d, log, i);
  }

  /** A drop on one queue, with its priorities and the trace of the first hop that shows it. */
  ghost predicate IsDrop(g: Graph, priorities: Priorities, d: Drop) {
    && HasPriority(priorities, d.from, d.fromPriority) && HasPriority(priorities, d.to, d.toPriority)
    && d.to.instance == d.from.instance && d.toPriority < d.fromPriority
    && Traced(g, priorities, d) && FirstShown(g, priorities, d)
  }

  /** Each pair once, by ascending (instance, port) of where the work arrived. */
  ghost predicate Listed(g: Graph, priorities: Priorities, drops: seq<Drop>) {
    (forall d :: d in drops ==> IsDrop(g, priorities, d)) && InOrder(drops)
  }

  ghost predicate InOrder(drops: seq<Drop>) {
    forall i, j :: 0 <= i < j < |drops| ==>
      !(drops[i].from == drops[j].from && drops[i].to == drops[j].to) && NotAfter(drops[i].from, drops[j].from)
  }

  predicate NotAfter(a: PortKey, b: PortKey) {
    a.instance < b.instance || (a.instance == b.instance && a.port <= b.port)
  }

  lemma HopIsTraced(g: Graph, priorities: Priorities, d: Drop, hop: Hop<()>)
    requires hop in FollowWalk(g, d.from).log && Lower(priorities, d.from, hop.call)
    requires d.trace == hop.path && d.to == hop.call.dest
    ensures Traced(g, priorities, d)
  {
    var n0, n := HopIsChain(g, d.from, hop);
    assert DropsVia(g, priorities, d.from, n0, Init(d.trace), n, Last(d.trace));
  }

  /** The drops recorded from one port so far: those there were, and those its hops showed. */
  ghost predicate Recorded(g: Graph, priorities: Priorities, from: PortKey, log: seq<Hop<()>>, before: seq<Drop>,
                           drops: seq<Drop>) {
    && Listed(g, priorities, drops) && (forall d :: d in drops ==> NotAfter(d.from, from))
    && forall f, t :: Reported(drops, f, t) <==>
         (Reported(before, f, t) || (f == from && ShownIn(priorities, from, t, log)))
  }

  lemma ListedOneMore(g: Graph, priorities: Priorities, drops: seq<Drop>, d: Drop)
    requires Listed(g, priorities, drops) && IsDrop(g, priorities, d) && !Reported(drops, d.from, d.to)
    requires forall x :: x in drops ==> NotAfter(x.from, d.from)
    ensures Listed(g, priorities, drops + [d])
  {
    OrderOneMore(drops, d);
    forall x | x in drops + [d] ensures IsDrop(g, priorities, x) {
      assert x in drops || x == d;
    }
  }

  lemma OrderOneMore(drops: seq<Drop>, d: Drop)
    requires InOrder(drops) && !Reported(drops, d.from, d.to) && forall x :: x in drops ==> NotAfter(x.from, d.from)
    ensures InOrder(drops + [d])
  {
    assert forall k :: 0 <= k < |drops| ==> drops[k] in drops;
  }

  lemma RecordedOneMore(g: Graph, priorities: Priorities, from: PortKey, log: seq<Hop<()>>, i: nat, before: seq<Drop>,
                        drops: seq<Drop>, d: Drop)
    requires i < |log| && Recorded(g, priorities, from, log[..i], before, drops) && log == FollowWalk(g, from).log
    requires Lower(priorities, from, log[i].call) && !Reported(drops, from, log[i].call.dest)
    requires d.from == from && d.to == log[i].call.dest && d.trace == log[i].path
    requires d.fromPriority == PriorityOf(priorities, from) && d.toPriority == PriorityOf(priorities, d.to)
    ensures Recorded(g, priorities, from, log[..i + 1], before, drops + [d])
  {
    HopIsTraced(g, priorities, d, log[i]);
    IsFirstShown(g, priorities, log, i, d);
    ListedOneMore(g, priorities, drops, d);
    ShownSnoc(priorities, from, log, i);
    ReportedSnoc(drops, d);
  }

  lemma RecordedAsBefore(g: Graph, priorities: Priorities, from: PortKey, log: seq<Hop<()>>, i: nat, before: seq<Drop>,
                         drops: seq<Drop>)
    requires i < |log| && Recorded(g, priorities, from, log[..i], before, drops)
    requires Lower(priorities, from, log[i].call) ==> Reported(drops, from, log[i].call.dest)
    ensures Recorded(g, priorities, from, log[..i + 1], before, drops)
  {
    ShownSnoc(priorities, from, log, i);
  }

  /** Records what the hops of one walk show; an existing entry for the same pair is kept. */
  method RecordDrops(g: Graph, priorities: Priorities, from: PortKey, log: seq<Hop<()>>, before: seq<Drop>)
    returns (drops: seq<Drop>)
    requires Listed(g, priorities, before) && forall d :: d in before ==> NotAfter(d.from, from)
    requires log == FollowWalk(g, from).log
    ensures Listed(g, priorities, drops) && forall d :: d in drops ==> NotAfter(d.from, from)
    ensures forall f, t :: Reported(drops, f, t) <==>
        Reported(before, f, t) || (f == from && ShownIn(priorities, from, t, log))
  {
    drops := before;
    for i := 0 to |log|
      invariant Recorded(g, priorities, from, log[..i], before, drops)
    {
      var hop := log[i];
      if Lower(priorities, from, hop.call) && !Has(drops, from, hop.call.dest) {
        var d := Drop(from, hop.call.dest, PriorityOf(priorities, from), PriorityOf(priorities, hop.call.dest),
            hop.path);
        RecordedOneMore(g, priorities, from, log, i, before, drops, d);
        drops := drops + [d];
      } else {
        RecordedAsBefore(g, priorities, from, log, i, before, drops);
      }
    }
    assert log[..|log|] == log;
  }

  predicate Has(drops: seq<Drop>, from: PortKey, to: PortKey)
    ensures Has(drops, from, to) <==> Reported(drops, from, to)
  {
    exists i :: 0 <= i < |drops| && drops[i].from == from && drops[i].to == to
  }

  lemma ShownSnoc(priorities: Priorities, from: PortKey, log: seq<Hop<()>>, i: nat)
    requires i < |log|
    ensures forall t :: ShownIn(priorities, from, t, log[..i + 1]) <==>
              ShownIn(priorities, from, t, log[..i]) || (Lower(priorities, from, log[i].call) && log[i].call.dest == t)
  {
    assert log[..i + 1] == log[..i] + [log[i]];
    assert log[i] in log[..i + 1];
    forall t ensures ShownIn(priorities, from, t, log[..i + 1]) <==>
        ShownIn(priorities, from, t, log[..i]) || (Lower(priorities, from, log[i].call) && log[i].call.dest == t)
    {
      if ShownIn(priorities, from, t, log[..i]) {
        var hop :| hop in log[..i] && Lower(priorities, from, hop.call) && hop.call.dest == t;
        assert hop in log[..i + 1];
      }
      if ShownIn(priorities, from, t, log[..i + 1]) {
        var hop :| hop in log[..i + 1] && Lower(priorities, from, hop.call) && hop.call.dest == t;
        assert hop == log[i] || hop in log[..i];
      }
    }
  }

  lemma ReportedSnoc(drops: seq<Drop>, d: Drop)
    ensures forall f, t :: Reported(drops + [d], f, t) <==> Reported(drops, f, t) || (d.from == f && d.to == t)
  {
    assert forall x :: x in drops + [d] <==> x in drops || x == d;
  }

  /** No walk of these entries ran out of its budget. */
  ghost predicate Untruncated(g: Graph) {
    forall from :: (from, Async) in g.handlers ==> !FollowWalk(g, from).truncated
  }

  ghost function Markers(g: Graph): set<(Node, ())> {
    set n | n in g.hops :: (n, ())
  }

  lemma {:induction false} AsManyMarkers(nodes: set<Node>)
    ensures |set n | n in nodes :: (n, ())| == |nodes|
  {
    if x :| x in nodes {
      AsManyMarkers(nodes - {x});
      assert (set n | n in nodes :: (n, ())) == (set n | n in nodes - {x} :: (n, ())) + {(x, ())};
    }
  }

  lemma FollowFits(g: Graph, from: PortKey)
    ensures FollowWalk(g, from).truncated ==> |Entries(g, from, Async)| * |g.hops.Keys| >= DEFAULT_MAX_STATES
  {
    var p, onKey, space, nodes := FollowPolicy(), FollowOnKey(), Markers(g), Entries(g, from, Async);
    forall m, c, n | m in space && c in Calls(g, m.0) && onKey(c, m.1).Some? && n in Entries(g, c.dest, c.kind)
      ensures (n, onKey(c, m.1).value) in space
    {
      assert (c.dest, c.kind) in g.handlers && n in g.hops;
    }
    forall n | n in nodes ensures (n, ()) in space {
      assert n in g.hops;
    }
    AsManyMarkers(g.hops.Keys);
    assert space == set n | n in g.hops.Keys :: (n, ());
    if |nodes| * |space| < DEFAULT_MAX_STATES {
      WalkIsAffordable(g, p, onKey, space, from, (), nodes, DEFAULT_MAX_STATES);
    }
  }

  /** The budget suffices where each async port's handlers, times all handlers, are fewer than its states. */
  lemma SmallTopologiesAreUntruncated(g: Graph)
    requires forall from :: (from, Async) in g.handlers ==>
        |g.handlers[(from, Async)]| * |g.hops.Keys| < 500000
    ensures Untruncated(g)
  {
    forall from | (from, Async) in g.handlers ensures !FollowWalk(g, from).truncated {
      FollowFits(g, from);
    }
  }

  ghost predicate Covered(g: Graph, priorities: Priorities, drops: seq<Drop>, done: iset<PortKey>) {
    forall f, t :: Reported(drops, f, t) <==> f in done && ShownIn(priorities, f, t, FollowWalk(g, f).log)
  }

  ghost function EarlierPorts(g: Graph, names: seq<Name>, i: nat): iset<PortKey>
    requires i <= |names|
  {
    iset p: PortKey | (p, Async) in g.handlers && p.instance in names[..i]
  }

  /** All re-queue drops of a topology; every walk has a budget of its own. */
  method FindRequeueDrops(g: Graph, priorities: Priorities) returns (drops: seq<Drop>)
    ensures Listed(g, priorities, drops)
    ensures forall f, t :: Reported(drops, f, t) ==> (f, Async) in g.handlers && Drops(g, priorities, f, t)
    ensures Untruncated(g) ==>
        forall f, t :: Reported(drops, f, t) <==> (f, Async) in g.handlers && Drops(g, priorities, f, t)
  {
    drops := [];
    var names := Sorted(g.instances);
    for i := 0 to |names|
      invariant Listed(g, priorities, drops) && Covered(g, priorities, drops, EarlierPorts(g, names, i))
      invariant forall d :: d in drops ==> d.from.instance in names[..i]
    {
      ghost var earlier := drops;
      var ports := Sorted(AsyncPorts(g, names[i]));
      drops := DropsOfInstance(g, priorities, names[i], ports, drops);
      OneMoreInstance(g, priorities, names, i, ports, earlier, drops);
    }
    assert names[..|names|] == names;
    AllFound(g, priorities, names, drops);
  }

  lemma AllFound(g: Graph, priorities: Priorities, names: seq<Name>, drops: seq<Drop>)
    requires Covered(g, priorities, drops, EarlierPorts(g, names, |names|)) && names == Sorted(g.instances)
    ensures forall f, t :: Reported(drops, f, t) ==> (f, Async) in g.handlers && Drops(g, priorities, f, t)
    ensures Untruncated(g) ==>
        forall f, t :: Reported(drops, f, t) <==> (f, Async) in g.handlers && Drops(g, priorities, f, t)
  {
    forall f, t ensures Reported(drops, f, t) ==> (f, Async) in g.handlers && Drops(g, priorities, f, t) {
      if Reported(drops, f, t) {
        ShownIsDrop(g, priorities, f, t);
      }
    }
    forall f, t | Untruncated(g) && (f, Async) in g.handlers && Drops(g, priorities, f, t)
      ensures Reported(drops, f, t)
    {
      DropIsShown(g, priorities, f, t);
      assert f.instance in names;
      assert names[..|names|] == names;
    }
  }

  /** The drops of one instance's ports, those among `ports`, were added. */
  ghost predicate Added(g: Graph, priorities: Priorities, name: Name, ports: seq<Name>, before: seq<Drop>,
      after: seq<Drop>) {
    forall f, t :: Reported(after, f, t) <==>
      (Reported(before, f, t)
       || (f.instance == name && f.port in ports && ShownIn(priorities, f, t, FollowWalk(g, f).log)))
  }

  lemma OneMoreInstance(g: Graph, priorities: Priorities, names: seq<Name>, i: nat, ports: seq<Name>,
                        before: seq<Drop>, after: seq<Drop>)
    requires i < |names| && Covered(g, priorities, before, EarlierPorts(g, names, i))
    requires forall d :: d in before ==> d.from.instance in names[..i]
    requires forall p :: p in ports <==> p in AsyncPorts(g, names[i])
    requires Added(g, priorities, names[i], ports, before, after)
    ensures Covered(g, priorities, after, EarlierPorts(g, names, i + 1))
    ensures forall d :: d in after ==> d.from.instance in names[..i + 1]
  {
    assert names[..i + 1] == names[..i] + [names[i]];
    forall d | d in after ensures d.from.instance in names[..i + 1] {
      assert Reported(after, d.from, d.to);
      if Reported(before, d.from, d.to) {
        var x :| x in before && x.from == d.from && x.to == d.to;
      }
    }
  }

  lemma EarlierDropsComeFirst(g: Graph, priorities: Priorities, name: Name, ports: seq<Name>, j: nat,
                              before: seq<Drop>, drops: seq<Drop>)
    requires Ascending(ports) && j < |ports| && Added(g, priorities, name, ports[..j], before, drops)
    requires forall d :: d in before ==> d.from.instance < name
    ensures forall d :: d in drops ==> NotAfter(d.from, PortKey(name, ports[j]))
  {
    forall d | d in drops ensures NotAfter(d.from, PortKey(name, ports[j])) {
      assert Reported(drops, d.from, d.to);
      if Reported(before, d.from, d.to) {
        var x :| x in before && x.from == d.from && x.to == d.to;
      }
    }
  }

  lemma OneMorePort(g: Graph, priorities: Priorities, name: Name, ports: seq<Name>, j: nat, before: seq<Drop>,
                    drops: seq<Drop>, drops': seq<Drop>)
    requires j < |ports| && Added(g, priorities, name, ports[..j], before, drops)
    requires var from := PortKey(name, ports[j]);
      forall f, t :: Reported(drops', f, t) <==>
        (Reported(drops, f, t) || (f == from && ShownIn(priorities, from, t, FollowWalk(g, from).log)))
    ensures Added(g, priorities, name, ports[..j + 1], before, drops')
  {
    assert ports[..j + 1] == ports[..j] + [ports[j]];
  }

  /** The drops of one instance's async ports, in port order. */
  method DropsOfInstance(g: Graph, priorities: Priorities, name: Name, ports: seq<Name>, before: seq<Drop>)
    returns (drops: seq<Drop>)
    requires Listed(g, priorities, before) && Ascending(ports) && forall d :: d in before ==> d.from.instance < name
    ensures Listed(g, priorities, drops) && Added(g, priorities, name, ports, before, drops)
  {
    drops := before;
    for j := 0 to |ports|
      invariant Listed(g, priorities, drops) && Added(g, priorities, name, ports[..j], before, drops)
    {
      var from := PortKey(name, ports[j]);
      var walker := new Traversal<(), ()>(g, FollowPolicy(), DEFAULT_MAX_STATES);
      var log, cut := walker.WalkChains(from, Async, ());
      EarlierDropsComeFirst(g, priorities, name, ports, j, before, drops);
      ghost var earlier := drops;
      drops := RecordDrops(g, priorities, from, log, drops);
      OneMorePort(g, priorities, name, ports, j, before, earlier, drops);
    }
    assert ports[..|ports|] == ports;
  }
}
