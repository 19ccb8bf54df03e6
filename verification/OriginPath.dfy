/**
 * The breadth-first search that explains one thread origin (topology_graph.py, origin_call_path), and its
 * agreement with the flood that computes thread origins.
 */
module OriginPaths {
  import opened Basics
  import opened Graph
  import opened Threads

  // The seeding port and the calls made from it, the last one landing on the port asked about.
  datatype CallPath = CallPath(seed: PortKey, calls: seq<Call>)

  /** The ports and kinds an origin token stands for; unlike a seed it need not be a live thread. */
  predicate Stands(g: Graph, o: Origin, port: PortKey, kind: Kind) {
    (port, kind) in g.handlers &&
    match o
    case Thread(name) => name == port.instance && kind == Async
    case External(p) => p == port && kind != Async
    case Unknown => false
  }

  function OriginSeeds(g: Graph, o: Origin): (r: set<Input>)
    ensures forall port, kind :: (port, kind) in r <==> Stands(g, o, port, kind)
  {
    set i | i in g.handlers && Stands(g, o, i.0, i.1)
  }

  ghost predicate LeadsFrom(g: Graph, entry: PortKey, path: CallPath, kind: Kind) {
    if path.calls == [] then path.seed == entry
    else
      var c := Last(path.calls);
      c.dest == entry && exists n0, n :: InvokesVia(g, path.seed, kind, n0, Init(path.calls), n, c)
  }

  /** A call path of the origin down to the entry port. */
  ghost predicate Leads(g: Graph, o: Origin, entry: PortKey, path: CallPath) {
    exists kind :: Stands(g, o, path.seed, kind) && LeadsFrom(g, entry, path, kind)
  }

  ghost predicate Shortest(g: Graph, o: Origin, entry: PortKey, path: CallPath) {
    Leads(g, o, entry, path) && forall other :: Leads(g, o, entry, other) ==> |path.calls| <= |other.calls|
  }

  // How the search first got to a handler.
  datatype Parent = Start(port: PortKey) | Step(prev: Node, call: Call)

  type Parents = map<Node, Parent>

  /** The calls recorded on the way to every handler found so far. */
  type Trails = map<Node, seq<Call>>

  ghost predicate TrailOk(g: Graph, o: Origin, parent: Parents, trail: Trails, n: Node)
    requires n in parent && parent.Keys == trail.Keys
  {
    match parent[n]
    case Start(port) => trail[n] == [] && exists kind :: Stands(g, o, port, kind) && n in Entries(g, port, kind)
    case Step(prev, call) => prev in trail && trail[n] == trail[prev] + [call] && ThreadStep(g, prev, call, n)
  }

  ghost predicate TrailsOk(g: Graph, o: Origin, parent: Parents, trail: Trails) {
    && parent.Keys == trail.Keys
    && forall n {:trigger TrailOk(g, o, parent, trail, n)} :: n in parent ==> TrailOk(g, o, parent, trail, n)
  }

  /** Handlers waiting in the queue are at distance d or d + 1, nearest first. */
  ghost predicate Levels(trail: Trails, queue: seq<Node>, d: nat) {
    && (forall i :: 0 <= i < |queue| ==> queue[i] in trail && d <= |trail[queue[i]]| <= d + 1)
    && (forall i, j :: 0 <= i < j < |queue| ==> |trail[queue[i]]| <= |trail[queue[j]]|)
  }

  /** A call out of a finished handler misses the entry, and what it enters is known and one step away. */
  ghost predicate CallFinished(g: Graph, entry: PortKey, trail: Trails, n: Node, c: Call)
    requires n in trail
  {
    c.kind != Async ==>
      c.dest != entry && forall k :: k in Entries(g, c.dest, c.kind) ==> k in trail && |trail[k]| <= |trail[n]| + 1
  }

  ghost predicate Finished(g: Graph, entry: PortKey, trail: Trails, done: set<Node>, d: nat) {
    forall n :: n in done ==> n in trail && |trail[n]| <= d
                              && forall c :: c in Calls(g, n) ==> CallFinished(g, entry, trail, n, c)
  }

  ghost predicate SeedsFound(g: Graph, o: Origin, trail: Trails) {
    forall port, kind, n :: Stands(g, o, port, kind) && n in Entries(g, port, kind) ==> n in trail && trail[n] == []
  }

  ghost predicate Discovered(trail: Trails, queue: seq<Node>, done: set<Node>) {
    && (forall n :: n in trail <==> n in queue || n in done)
    && (forall n :: n in queue ==> n !in done)
    && NoDup(queue)
  }

  /** Any chain shorter than d runs through finished handlers only. */
  lemma {:induction false} NearIsFinished(g: Graph, o: Origin, entry: PortKey, trail: Trails, queue: seq<Node>,
                                          done: set<Node>, d: nat, port: PortKey, kind: Kind, n0: Node,
                                          calls: seq<Call>, n: Node)
    requires SeedsFound(g, o, trail) && Discovered(trail, queue, done) && Finished(g, entry, trail, done, d)
    requires Levels(trail, queue, d) && (queue == [] || |calls| < d)
    requires Stands(g, o, port, kind) && n0 in Entries(g, port, kind) && Chain(g, n0, calls, n)
    ensures n in done && |trail[n]| <= |calls|
    decreases |calls|
  {
    if calls == [] {
    } else {
      var m :| Chain(g, n0, Init(calls), m) && ThreadStep(g, m, Last(calls), n);
      NearIsFinished(g, o, entry, trail, queue, done, d, port, kind, n0, Init(calls), m);
      assert CallFinished(g, entry, trail, m, Last(calls));
    }
  }

  /** With the nearest handler of the queue at distance d, no call path has d calls or fewer. */
  lemma NothingNearer(g: Graph, o: Origin, entry: PortKey, trail: Trails, queue: seq<Node>, done: set<Node>, d: nat,
                      other: CallPath)
    requires SeedsFound(g, o, trail) && Discovered(trail, queue, done) && Finished(g, entry, trail, done, d)
    requires Levels(trail, queue, d) && forall kind :: !Stands(g, o, entry, kind)
    requires Leads(g, o, entry, other)
    ensures queue != [] && |other.calls| > d
  {
    var kind :| Stands(g, o, other.seed, kind) && LeadsFrom(g, entry, other, kind);
    var n0, n :| InvokesVia(g, other.seed, kind, n0, Init(other.calls), n, Last(other.calls));
    if queue == [] || |other.calls| <= d {
      NearIsFinished(g, o, entry, trail, queue, done, d, other.seed, kind, n0, Init(other.calls), n);
    }
  }

  /** The search recorded more handlers, all of them `far` calls away, and queued exactly those. */
  ghost predicate Grown(trail: Trails, queue: seq<Node>, trail': Trails, queue': seq<Node>, far: nat) {
    && queue <= queue'
    && (forall k :: k in trail ==> k in trail' && trail'[k] == trail[k])
    && (forall k :: k in trail' ==> k in trail || k in queue')
    && (forall i :: |queue| <= i < |queue'| ==>
          queue'[i] in trail' && queue'[i] !in trail && |trail'[queue'[i]]| == far)
    && (forall i, j :: |queue| <= i < j < |queue'| ==> queue'[i] != queue'[j])
  }

  lemma GrownTwice(t0: Trails, q0: seq<Node>, t1: Trails, q1: seq<Node>, t2: Trails, q2: seq<Node>, far: nat)
    requires Grown(t0, q0, t1, q1, far) && Grown(t1, q1, t2, q2, far)
    ensures Grown(t0, q0, t2, q2, far)
  {
    forall k | k in t2 ensures k in t0 || k in q2 {
      if k in t1 && k !in t0 {
        var i :| 0 <= i < |q1| && q1[i] == k;
        assert q2[i] == k;
      }
    }
  }

  lemma GrownKeeps(g: Graph, entry: PortKey, trail: Trails, queue: seq<Node>, trail': Trails, queue': seq<Node>,
                   done: set<Node>, d: nat)
    requires Grown(trail, queue, trail', queue', d + 1) && Levels(trail, queue, d)
    requires Finished(g, entry, trail, done, d)
    ensures Levels(trail', queue', d) && Finished(g, entry, trail', done, d)
    ensures forall o :: SeedsFound(g, o, trail) ==> SeedsFound(g, o, trail')
  {
    forall o, port, kind, n | SeedsFound(g, o, trail) && Stands(g, o, port, kind) && n in Entries(g, port, kind)
      ensures n in trail' && trail'[n] == []
    {
      assert n in trail && trail[n] == [];
    }
    forall n, c | n in done && c in Calls(g, n) ensures CallFinished(g, entry, trail', n, c) {
      assert CallFinished(g, entry, trail, n, c);
    }
  }

  ghost predicate WayIn(g: Graph, o: Origin, trail: Trails, how: Parent, n: Node) {
    match how
    case Start(port) => exists kind :: Stands(g, o, port, kind) && n in Entries(g, port, kind)
    case Step(prev, call) => prev in trail && ThreadStep(g, prev, call, n)
  }

  lemma WayInStays(g: Graph, o: Origin, trail: Trails, queue: seq<Node>, trail': Trails, queue': seq<Node>, far: nat,
                   how: Parent, n: Node)
    requires WayIn(g, o, trail, how, n) && Grown(trail, queue, trail', queue', far)
    ensures WayIn(g, o, trail', how, n)
  {
  }

  ghost function CallsSoFar(trail: Trails, how: Parent): seq<Call> {
    if how.Step? && how.prev in trail then trail[how.prev] + [how.call] else []
  }

  lemma RecordKeepsTrails(g: Graph, o: Origin, parent: Parents, trail: Trails, how: Parent, n: Node)
    requires TrailsOk(g, o, parent, trail) && WayIn(g, o, trail, how, n) && n !in parent
    ensures TrailsOk(g, o, parent[n := how], trail[n := CallsSoFar(trail, how)])
  {
    var parent', trail' := parent[n := how], trail[n := CallsSoFar(trail, how)];
    forall k | k in parent' ensures TrailOk(g, o, parent', trail', k) {
      if k == n {
        NewTrail(g, o, parent, trail, how, n);
      } else {
        assert TrailOk(g, o, parent, trail, k);
        OldTrail(g, o, parent, trail, how, n, k);
      }
    }
  }

  lemma NewTrail(g: Graph, o: Origin, parent: Parents, trail: Trails, how: Parent, n: Node)
    requires parent.Keys == trail.Keys && WayIn(g, o, trail, how, n) && n !in parent
    ensures TrailOk(g, o, parent[n := how], trail[n := CallsSoFar(trail, how)], n)
  {
  }

  lemma OldTrail(g: Graph, o: Origin, parent: Parents, trail: Trails, how: Parent, n: Node, k: Node)
    requires parent.Keys == trail.Keys && k in parent && n !in parent && TrailOk(g, o, parent, trail, k)
    ensures TrailOk(g, o, parent[n := how], trail[n := CallsSoFar(trail, how)], k)
  {
  }

  /** The search while it records the handlers one step on: what it knew, and more at the same distance. */
  ghost predicate Recording(g: Graph, o: Origin, trail: Trails, queue: seq<Node>, how: Parent,
                            parent': Parents, trail': Trails, queue': seq<Node>) {
    && TrailsOk(g, o, parent', trail') && Grown(trail, queue, trail', queue', |CallsSoFar(trail, how)|)
    && CallsSoFar(trail', how) == CallsSoFar(trail, how)
  }

  lemma RecordOne(g: Graph, o: Origin, trail: Trails, queue: seq<Node>, how: Parent,
                  parent': Parents, trail': Trails, queue': seq<Node>, n: Node)
    requires Recording(g, o, trail, queue, how, parent', trail', queue') && WayIn(g, o, trail, how, n) && n !in parent'
    ensures Recording(g, o, trail, queue, how, parent'[n := how], trail'[n := CallsSoFar(trail', how)], queue' + [n])
  {
    var far, more := |CallsSoFar(trail, how)|, trail'[n := CallsSoFar(trail', how)];
    WayInStays(g, o, trail, queue, trail', queue', far, how, n);
    RecordKeepsTrails(g, o, parent', trail', how, n);
    assert Grown(trail', queue', more, queue' + [n], far);
    GrownTwice(trail, queue, trail', queue', more, queue' + [n], far);
  }

  /** Known are the handlers known before and those of the list. */
  ghost predicate Knows(trail: Trails, trail': Trails, nodes: seq<Node>) {
    forall k :: k in trail' <==> k in trail || k in nodes
  }

  lemma KnowsOneMore(trail: Trails, trail': Trails, nodes: seq<Node>, j: nat, calls: seq<Call>)
    requires j < |nodes| && Knows(trail, trail', nodes[..j])
    ensures Knows(trail, trail'[nodes[j] := calls], nodes[..j + 1])
    ensures nodes[j] in trail' ==> Knows(trail, trail', nodes[..j + 1])
  {
    assert nodes[..j + 1] == nodes[..j] + [nodes[j]];
  }

  /** Records every handler of a list that is not known yet, and queues it. */
  method Discover(g: Graph, o: Origin, nodes: seq<Node>, how: Parent, parent: Parents, queue: seq<Node>,
                  ghost trail: Trails)
    returns (parent': Parents, queue': seq<Node>, ghost trail': Trails)
    requires TrailsOk(g, o, parent, trail) && forall n :: n in nodes ==> WayIn(g, o, trail, how, n)
    ensures TrailsOk(g, o, parent', trail') && Grown(trail, queue, trail', queue', |CallsSoFar(trail, how)|)
    ensures forall k :: k in trail' <==> k in trail || k in nodes
  {
    parent', queue', trail' := parent, queue, trail;
    for j := 0 to |nodes|
      invariant Recording(g, o, trail, queue, how, parent', trail', queue')
      invariant Knows(trail, trail', nodes[..j])
    {
      var n := nodes[j];
      KnowsOneMore(trail, trail', nodes, j, CallsSoFar(trail', how));
      if n !in parent' {
        RecordOne(g, o, trail, queue, how, parent', trail', queue', n);
        parent', trail', queue' := parent'[n := how], trail'[n := CallsSoFar(trail', how)], queue' + [n];
      }
    }
    assert nodes[..|nodes|] == nodes;
  }

  /** The calls found so far lead from one of the recorded handlers to the one asked for. */
  ghost predicate Retraced(g: Graph, parent: Parents, trail: Trails, cur: Node, calls: seq<Call>, node: Node) {
    cur in parent && cur in trail && node in trail && trail[cur] + calls == trail[node] && Chain(g, cur, calls, node)
  }

  lemma RetraceOne(g: Graph, o: Origin, parent: Parents, trail: Trails, cur: Node, calls: seq<Call>, node: Node)
    requires TrailsOk(g, o, parent, trail) && Retraced(g, parent, trail, cur, calls, node) && parent[cur].Step?
    ensures Retraced(g, parent, trail, parent[cur].prev, [parent[cur].call] + calls, node)
    ensures |trail[parent[cur].prev]| < |trail[cur]|
  {
    assert TrailOk(g, o, parent, trail, cur);
    var Step(prev, call) := parent[cur];
    ChainCons(g, prev, call, cur, calls, node);
    Regroup(trail[prev], [call], calls);
  }

  /** Follows the recorded parents from a handler back to the seeding port. */
  method Retrace(g: Graph, o: Origin, parent: Parents, ghost trail: Trails, node: Node)
    returns (seed: PortKey, calls: seq<Call>, ghost kind: Kind, ghost n0: Node)
    requires TrailsOk(g, o, parent, trail) && node in parent
    ensures calls == trail[node]
    ensures Stands(g, o, seed, kind) && n0 in Entries(g, seed, kind) && Chain(g, n0, calls, node)
  {
    var cur := node;
    calls := [];
    while parent[cur].Step?
      invariant Retraced(g, parent, trail, cur, calls, node)
      decreases |trail[cur]|
    {
      RetraceOne(g, o, parent, trail, cur, calls, node);
      cur, calls := parent[cur].prev, [parent[cur].call] + calls;
    }
    kind := RetraceEnd(g, o, parent, trail, cur, calls, node);
    seed, n0 := parent[cur].port, cur;
  }

  lemma RetraceEnd(g: Graph, o: Origin, parent: Parents, trail: Trails, cur: Node, calls: seq<Call>, node: Node)
    returns (kind: Kind)
    requires TrailsOk(g, o, parent, trail) && Retraced(g, parent, trail, cur, calls, node) && parent[cur].Start?
    ensures Stands(g, o, parent[cur].port, kind) && cur in Entries(g, parent[cur].port, kind) && calls == trail[node]
  {
    assert TrailOk(g, o, parent, trail, cur);
    kind :| Stands(g, o, parent[cur].port, kind) && cur in Entries(g, parent[cur].port, kind);
    assert trail[cur] + calls == calls;
  }

  /** One call path from the origin down to the entry, or None. */
  method OriginCallPath(g: Graph, o: Origin, entry: PortKey) returns (r: Option<CallPath>)
    ensures r.Some? ==> Shortest(g, o, entry, r.value)
    ensures r.None? ==> forall path :: !Leads(g, o, entry, path)
  {
    var seeds := OriginSeeds(g, o);
    if i :| i in seeds && i.0 == entry {
      assert Stands(g, o, entry, i.1);
      assert LeadsFrom(g, entry, CallPath(entry, []), i.1);
      return Some(CallPath(entry, []));
    }
    forall kind ensures !Stands(g, o, entry, kind) {
      assert (entry, kind) !in seeds;
    }
    var parent: Parents, queue: seq<Node> := map[], [];
    ghost var trail: Trails := map[];
    var todo := seeds;
    while todo != {}
      invariant todo <= seeds && TrailsOk(g, o, parent, trail) && Grown(map[], [], trail, queue, 0)
      invariant forall i, n :: i in seeds - todo && n in Entries(g, i.0, i.1) ==> n in trail
      decreases todo
    {
      var i :| i in todo;
      todo := todo - {i};
      assert Stands(g, o, i.0, i.1);
      ghost var t, q := trail, queue;
      assert forall n :: n in Entries(g, i.0, i.1) ==> WayIn(g, o, trail, Start(i.0), n);
      parent, queue, trail := Discover(g, o, Entries(g, i.0, i.1), Start(i.0), parent, queue, trail);
      GrownTwice(map[], [], t, q, trail, queue, 0);
    }
    assert SeedsFound(g, o, trail);
    r := Search(g, o, entry, parent, queue, trail);
  }

  /** Once the nearest handler has been expanded, it moves from the queue to the finished ones. */
  lemma Advance(g: Graph, entry: PortKey, trail: Trails, queue: seq<Node>, trail': Trails, queue': seq<Node>,
                done: set<Node>)
    requires queue != [] && Discovered(trail, queue, done)
    requires queue[0] in trail && Grown(trail, queue[1..], trail', queue', |trail[queue[0]]| + 1)
    ensures Discovered(trail', queue', done + {queue[0]})
  {
    var rest, node := queue[1..], queue[0];
    forall i, j | 0 <= i < j < |queue'| ensures queue'[i] != queue'[j] {
      if i < |rest| {
        assert queue'[i] == rest[i] == queue[i + 1];
        if j < |rest| {
          assert queue'[j] == rest[j] == queue[j + 1];
        }
      }
    }
    forall n | n in queue' ensures n !in done + {node} && n in trail' {
      var i :| 0 <= i < |queue'| && queue'[i] == n;
      if i < |rest| {
        assert n == rest[i] == queue[i + 1];
      }
    }
    forall n | n in trail' ensures n in queue' || n in done + {node} {
      if n in trail && n in queue && n != node {
        var i :| 0 <= i < |queue| && queue[i] == n;
        assert queue'[i - 1] == rest[i - 1] == n;
      }
    }
  }

  ghost predicate Within(trail: Trails, queue: seq<Node>, far: nat) {
    (forall k :: k in trail ==> |trail[k]| <= far) && forall k :: k in queue ==> k in trail
  }

  lemma WithinStays(trail: Trails, queue: seq<Node>, trail': Trails, queue': seq<Node>, far: nat)
    requires Within(trail, queue, far) && Grown(trail, queue, trail', queue', far)
    ensures Within(trail', queue', far)
  {
    forall k | k in queue' ensures k in trail' && |trail'[k]| <= far {
      var i :| 0 <= i < |queue'| && queue'[i] == k;
      if i < |queue| {
        assert queue[i] == k;
      }
    }
  }

  ghost predicate FirstFinished(g: Graph, entry: PortKey, trail: Trails, node: Node, calls: seq<Call>, i: nat) {
    node in trail && i <= |calls| && forall j :: 0 <= j < i ==> CallFinished(g, entry, trail, node, calls[j])
  }

  lemma OneMoreFinished(g: Graph, entry: PortKey, t0: Trails, q0: seq<Node>, trail: Trails, queue: seq<Node>,
                        trail': Trails, queue': seq<Node>, node: Node, calls: seq<Call>, i: nat)
    requires i < |calls| && FirstFinished(g, entry, trail, node, calls, i) && node in t0
    requires Within(t0, q0, |t0[node]| + 1) && Grown(t0, q0, trail, queue, |t0[node]| + 1)
    requires Grown(trail, queue, trail', queue', |t0[node]| + 1)
    requires calls[i].kind != Async ==>
      calls[i].dest != entry && forall k :: k in Entries(g, calls[i].dest, calls[i].kind) ==> k in trail'
    ensures Grown(t0, q0, trail', queue', |t0[node]| + 1) && FirstFinished(g, entry, trail', node, calls, i + 1)
  {
    GrownTwice(t0, q0, trail, queue, trail', queue', |t0[node]| + 1);
    WithinStays(t0, q0, trail', queue', |t0[node]| + 1);
    forall j | 0 <= j < i + 1 ensures CallFinished(g, entry, trail', node, calls[j]) {
      if j < i {
        assert CallFinished(g, entry, trail, node, calls[j]);
      }
    }
  }

  lemma FoundLeads(g: Graph, o: Origin, entry: PortKey, seed: PortKey, kind: Kind, n0: Node, path: seq<Call>,
                   node: Node, c: Call)
    requires Stands(g, o, seed, kind) && InvokesVia(g, seed, kind, n0, path, node, c) && c.dest == entry
    ensures Leads(g, o, entry, CallPath(seed, path + [c]))
  {
    assert Init(path + [c]) == path;
    assert LeadsFrom(g, entry, CallPath(seed, path + [c]), kind);
  }

  /** Follows one call: it either lands on the entry or records the handlers it enters. */
  method Follow(g: Graph, o: Origin, entry: PortKey, node: Node, c: Call, parent: Parents, queue: seq<Node>,
                ghost trail: Trails)
    returns (found: Option<CallPath>, parent': Parents, queue': seq<Node>, ghost trail': Trails)
    requires TrailsOk(g, o, parent, trail) && node in parent && c in Calls(g, node)
    ensures found.Some? ==> Leads(g, o, entry, found.value) && |found.value.calls| == |trail[node]| + 1
    ensures TrailsOk(g, o, parent', trail') && Grown(trail, queue, trail', queue', |trail[node]| + 1)
    ensures found.None? && c.kind != Async ==>
              c.dest != entry && forall k :: k in Entries(g, c.dest, c.kind) ==> k in trail'
  {
    found, parent', queue', trail' := None, parent, queue, trail;
    if c.kind == Async {
      return;
    }
    if c.dest == entry {
      var seed, path, kind, n0 := Retrace(g, o, parent, trail, node);
      found := Some(CallPath(seed, path + [c]));
      FoundLeads(g, o, entry, seed, kind, n0, path, node, c);
    } else {
      parent', queue', trail' := Discover(g, o, Entries(g, c.dest, c.kind), Step(node, c), parent, queue, trail);
    }
  }

  /** Follows every call out of one handler, in order, until one lands on the entry. */
  method Expand(g: Graph, o: Origin, entry: PortKey, node: Node, parent: Parents, queue: seq<Node>, ghost trail: Trails)
    returns (found: Option<CallPath>, parent': Parents, queue': seq<Node>, ghost trail': Trails)
    requires TrailsOk(g, o, parent, trail) && node in parent && Within(trail, queue, |trail[node]| + 1)
    ensures found.Some? ==> Leads(g, o, entry, found.value) && |found.value.calls| == |trail[node]| + 1
    ensures TrailsOk(g, o, parent', trail') && Grown(trail, queue, trail', queue', |trail[node]| + 1)
    ensures found.None? ==> FirstFinished(g, entry, trail', node, Calls(g, node), |Calls(g, node)|)
  {
    parent', queue', trail', found := parent, queue, trail, None;
    var calls := Calls(g, node);
    for i := 0 to |calls|
      invariant found.None? && TrailsOk(g, o, parent', trail')
      invariant Grown(trail, queue, trail', queue', |trail[node]| + 1)
      invariant FirstFinished(g, entry, trail', node, calls, i)
    {
      ghost var t, q := trail', queue';
      found, parent', queue', trail' := Follow(g, o, entry, node, calls[i], parent', queue', trail');
      if found.Some? {
        GrownTwice(trail, queue, t, q, trail', queue', |trail[node]| + 1);
        return;
      }
      OneMoreFinished(g, entry, trail, queue, t, q, trail', queue', node, calls, i);
    }
  }

  /** The search invariant, with the nearest waiting handlers d calls away. */
  ghost predicate Searching(g: Graph, o: Origin, entry: PortKey, parent: Parents, trail: Trails, queue: seq<Node>,
                            done: set<Node>, d: nat) {
    && TrailsOk(g, o, parent, trail) && SeedsFound(g, o, trail) && Discovered(trail, queue, done)
    && Levels(trail, queue, d) && Finished(g, entry, trail, done, d)
  }

  lemma NearestFirst(g: Graph, o: Origin, entry: PortKey, parent: Parents, trail: Trails, queue: seq<Node>,
                     done: set<Node>, d: nat)
    requires Searching(g, o, entry, parent, trail, queue, done, d) && queue != []
    ensures queue[0] in trail && Searching(g, o, entry, parent, trail, queue, done, |trail[queue[0]]|)
    ensures Levels(trail, queue[1..], |trail[queue[0]]|) && Within(trail, queue[1..], |trail[queue[0]]| + 1)
    ensures queue[0] in g.hops && queue[0] !in done
  {
    assert TrailOk(g, o, parent, trail, queue[0]);
    NearestLevel(trail, queue, d);
    forall k | k in trail ensures |trail[k]| <= |trail[queue[0]]| + 1 {
      assert k in queue || k in done;
    }
  }

  lemma NearestLevel(trail: Trails, queue: seq<Node>, d: nat)
    requires queue != [] && Levels(trail, queue, d)
    ensures queue[0] in trail && |trail[queue[0]]| >= d && Levels(trail, queue, |trail[queue[0]]|)
    ensures Levels(trail, queue[1..], |trail[queue[0]]|)
    ensures forall k :: k in queue ==> k in trail && |trail[k]| <= |trail[queue[0]]| + 1
  {
    var far := |trail[queue[0]]|;
    forall i | 0 <= i < |queue| ensures queue[i] in trail && far <= |trail[queue[i]]| <= far + 1 {
    }
  }

  lemma EveryPathIsLonger(g: Graph, o: Origin, entry: PortKey, parent: Parents, trail: Trails, queue: seq<Node>,
                          done: set<Node>, d: nat)
    requires Searching(g, o, entry, parent, trail, queue, done, d) && forall kind :: !Stands(g, o, entry, kind)
    ensures forall other :: Leads(g, o, entry, other) ==> queue != [] && |other.calls| > d
  {
    forall other | Leads(g, o, entry, other) ensures queue != [] && |other.calls| > d {
      NothingNearer(g, o, entry, trail, queue, done, d, other);
    }
  }

  lemma SearchAdvances(g: Graph, o: Origin, entry: PortKey, trail: Trails, queue: seq<Node>, parent': Parents,
                       trail': Trails, queue': seq<Node>, done: set<Node>)
    requires queue != [] && Discovered(trail, queue, done) && SeedsFound(g, o, trail) && queue[0] in trail
    requires Levels(trail, queue[1..], |trail[queue[0]]|) && Finished(g, entry, trail, done, |trail[queue[0]]|)
    requires TrailsOk(g, o, parent', trail') && Grown(trail, queue[1..], trail', queue', |trail[queue[0]]| + 1)
    requires FirstFinished(g, entry, trail', queue[0], Calls(g, queue[0]), |Calls(g, queue[0])|)
    ensures Searching(g, o, entry, parent', trail', queue', done + {queue[0]}, |trail[queue[0]]|)
  {
    Advance(g, entry, trail, queue, trail', queue', done);
    GrownKeeps(g, entry, trail, queue[1..], trail', queue', done, |trail[queue[0]]|);
  }

  method Search(g: Graph, o: Origin, entry: PortKey, parent0: Parents, queue0: seq<Node>, ghost trail0: Trails)
    returns (r: Option<CallPath>)
    requires Searching(g, o, entry, parent0, trail0, queue0, {}, 0) && forall kind :: !Stands(g, o, entry, kind)
    ensures r.Some? ==> Shortest(g, o, entry, r.value)
    ensures r.None? ==> forall path :: !Leads(g, o, entry, path)
  {
    var parent, queue := parent0, queue0;
    ghost var trail, done := trail0, {};
    ghost var d: nat := 0;
    while queue != []
      invariant Searching(g, o, entry, parent, trail, queue, done, d)
      decreases g.hops.Keys - done
    {
      NearestFirst(g, o, entry, parent, trail, queue, done, d);
      var node := queue[0];
      d := |trail[node]|;
      EveryPathIsLonger(g, o, entry, parent, trail, queue, done, d);
      ghost var t, q := trail, queue;
      queue := queue[1..];
      var found;
      found, parent, queue, trail := Expand(g, o, entry, node, parent, queue, trail);
      if found.Some? {
        return found;
      }
      SearchAdvances(g, o, entry, t, q, parent, trail, queue, done);
      done := done + {node};
    }
    EveryPathIsLonger(g, o, entry, parent, trail, queue, done, d);
    return None;
  }

  /** Whether the origin token names a thread of control that exists in the topology. */
  ghost predicate Live(g: Graph, o: Origin) {
    match o
    case Thread(name) => name in g.ownThread
    case External(port) => port !in g.connected
    case Unknown => false
  }

  /**
   * The search agrees with the flood: an origin reaches the entry exactly when it is live and a call path leads there,
   * and Unknown stands there exactly when no live origin has one. For a token that is not live the search may still
   * print a path.
   */
  lemma SearchAgreesWithFlood(g: Graph, o: Origin, entry: PortKey)
    ensures OriginsOf(g, entry) != {}
    ensures o in OriginsOf(g, entry) <==>
      if o == Unknown then forall live, path :: Live(g, live) ==> !Leads(g, live, entry, path)
      else Live(g, o) && exists path :: Leads(g, o, entry, path)
  {
    UnknownIsUnreached(g, entry);
    forall live, path | Live(g, live) && Leads(g, live, entry, path) ensures live in OriginsOf(g, entry) {
      PathIsSeeded(g, live, entry, path);
    }
    forall s | IsSeed(g, s) && Invokes(g, s.port, s.kind, entry)
      ensures Live(g, s.origin) && exists path :: Leads(g, s.origin, entry, path)
    {
      SeedHasPath(g, s, entry);
    }
    if o != Unknown && o in OriginsOf(g, entry) {
      var s :| s in Seeds(g) && SeedReaches(g, s, entry) && s.origin == o;
    }
  }

  lemma PathIsSeeded(g: Graph, o: Origin, entry: PortKey, path: CallPath)
    requires Live(g, o) && Leads(g, o, entry, path)
    ensures o in OriginsOf(g, entry)
  {
    var kind :| Stands(g, o, path.seed, kind) && LeadsFrom(g, entry, path, kind);
    var s := Seed(o, path.seed, kind);
    assert IsSeed(g, s) && Invokes(g, path.seed, kind, entry);
    assert s in Seeds(g) && SeedReaches(g, s, entry) && s.origin in Reaching(g, entry);
  }

  lemma SeedHasPath(g: Graph, s: Seed, entry: PortKey)
    requires SeedReaches(g, s, entry)
    ensures exists path :: Leads(g, s.origin, entry, path)
  {
    assert Stands(g, s.origin, s.port, s.kind);
    if s.port == entry {
      var path := CallPath(s.port, []);
      assert LeadsFrom(g, entry, path, s.kind);
      assert Leads(g, s.origin, entry, path);
    } else {
      var n0, calls, n, c :| InvokesVia(g, s.port, s.kind, n0, calls, n, c) && c.dest == entry;
      FoundLeads(g, s.origin, entry, s.port, s.kind, n0, calls, n, c);
    }
  }
}
