/**
 * Rate propagation (rate_groups.py): every tick of a rate group runs its members, and whatever they call on the
 * same thread, once. A worklist carries each rate-group output's frequency forward through the handlers.
 */
module Rates {
  import opened Basics
  import opened Graph

  // One end of a connection. Without an index it is printed like the bare port.
  datatype End = End(port: PortKey, index: Option<nat>)

  datatype Connection = Connection(source: End, dest: PortKey)

  // The handlers with the output ports each can reach, wired or not; the connections as a list; the frequencies
  // of the rate groups; and the name of their member port.
  datatype Plan = Plan(g: Graph, outputs: map<Node, seq<Name>>, wiring: seq<Connection>, groups: map<Name, real>,
    memberPort: Name)

  // A frequency arriving at an input port, to be dispatched one way.
  datatype Item = Item(root: End, dest: PortKey, kind: Kind)

  datatype Visit = Visit(root: End, node: Node, kind: Kind)

  type Table = map<PortKey, map<End, real>>

  function OutputsOf(p: Plan, n: Node): seq<Name> {
    if n in p.outputs then p.outputs[n] else []
  }

  predicate Drives(p: Plan, c: Connection) {
    c.source.port.instance in p.groups && c.source.port.port == p.memberPort
  }

  /** A connection leaves the member port of a group from this end. */
  ghost predicate IsRoot(p: Plan, e: End) {
    e.port.instance in p.groups && e.port.port == p.memberPort && exists c :: c in p.wiring && c.source == e
  }

  function Roots(p: Plan): (r: set<End>)
    ensures forall e :: e in r <==> IsRoot(p, e)
  {
    set c | c in p.wiring && Drives(p, c) :: c.source
  }

  function Hz(p: Plan, root: End): real {
    if root.port.instance in p.groups then p.groups[root.port.instance] else 0.0
  }

  // ---------------------------------------------------------------------------------------------
  // Which roots reach what
  // ---------------------------------------------------------------------------------------------

  /** The item's root is connected to the port it arrives at, which is dispatched that way. */
  ghost predicate Starts(p: Plan, i: Item) {
    && i.root.port.instance in p.groups && i.root.port.port == p.memberPort && (i.dest, i.kind) in p.g.handlers
    && Connection(i.root, i.dest) in p.wiring
  }

  predicate StartedBy(p: Plan, c: Connection, i: Item) {
    Drives(p, c) && i.root == c.source && i.dest == c.dest && (c.dest, i.kind) in p.g.handlers
  }

  function StartItems(p: Plan, c: Connection, kinds: seq<Kind>): (r: seq<Item>)
    ensures forall i :: i in r <==> StartedBy(p, c, i) && i.kind in kinds
  {
    if kinds == [] then []
    else
      var i := Item(c.source, c.dest, kinds[0]);
      (if StartedBy(p, c, i) then [i] else []) + StartItems(p, c, kinds[1..])
  }

  /** A tick of the root runs the handler before any further async hop. */
  ghost predicate Runs(p: Plan, root: End, n: Node) {
    exists i, n0, calls :: Starts(p, i) && i.root == root && n0 in Entries(p.g, i.dest, i.kind)
                           && Chain(p.g, n0, calls, n)
  }

  ghost predicate Arrives(p: Plan, i: Item) {
    Starts(p, i) || exists n, c :: Runs(p, i.root, n) && c in Calls(p.g, n) && c.kind != Async
                                   && i.dest == c.dest && i.kind == c.kind
  }

  ghost predicate Enters(p: Plan, root: End, port: PortKey) {
    exists kind :: Arrives(p, Item(root, port, kind))
  }

  ghost predicate Emits(p: Plan, root: End, source: PortKey) {
    exists n :: Runs(p, root, n) && n.instance == source.instance && n in p.outputs && source.port in p.outputs[n]
  }

  ghost function EntryRoots(p: Plan, port: PortKey): set<End> {
    set e | e in Roots(p) && Enters(p, e, port)
  }

  ghost function OutputRoots(p: Plan, source: PortKey): set<End> {
    set e | e in Roots(p) && Emits(p, e, source)
  }

  // ---------------------------------------------------------------------------------------------
  // Sums
  // ---------------------------------------------------------------------------------------------

  ghost function Total(m: map<End, real>): real {
    if m == map[] then 0.0
    else
      var e :| e in m;
      m[e] + Total(m - {e})
  }

  /** The sum does not depend on the order. */
  lemma {:induction false} TotalLess(m: map<End, real>, e: End)
    requires e in m
    ensures Total(m) == m[e] + Total(m - {e})
    decreases |m|
  {
    var x :| x in m && Total(m) == m[x] + Total(m - {x});
    if x != e {
      TotalLess(m - {x}, e);
      TotalLess(m - {e}, x);
      assert (m - {x}) - {e} == (m - {e}) - {x};
    }
  }

  method Sum(m: map<End, real>) returns (r: real)
    ensures r == Total(m)
  {
    r := 0.0;
    var todo := m;
    while todo != map[]
      invariant r + Total(todo) == Total(m)
      decreases |todo|
    {
      var e :| e in todo;
      TotalLess(todo, e);
      r, todo := r + todo[e], todo - {e};
    }
  }

  /** The sum of the roots' frequencies, each root once. */
  ghost function Rate(p: Plan, roots: set<End>): real {
    Total(map e | e in roots :: Hz(p, e))
  }

  /** Nothing contributes nothing, and each root contributes its group's frequency once. */
  lemma RateIsTheSum(p: Plan, roots: set<End>, root: End)
    requires root in roots && root.port.instance in p.groups
    ensures Rate(p, {}) == 0.0 && Rate(p, roots) == p.groups[root.port.instance] + Rate(p, roots - {root})
  {
    var all := map e | e in roots :: Hz(p, e);
    TotalLess(all, root);
    assert all - {root} == map e | e in roots - {root} :: Hz(p, e);
    assert (map e | e in {} :: Hz(p, e)) == map[];
  }

  lemma {:induction false} RatesAdd(p: Plan, a: set<End>, b: set<End>)
    requires a !! b && forall e :: e in a ==> e.port.instance in p.groups
    ensures Rate(p, a + b) == Rate(p, a) + Rate(p, b)
  {
    if a == {} {
      assert a + b == b;
      assert (map e | e in {} :: Hz(p, e)) == map[];
    } else {
      var e :| e in a;
      RateIsTheSum(p, a, e);
      RateIsTheSum(p, a + b, e);
      assert (a + b) - {e} == (a - {e}) + b;
      RatesAdd(p, a - {e}, b);
    }
  }

  lemma RateOfOne(p: Plan, root: End)
    requires root.port.instance in p.groups
    ensures Rate(p, {root}) == p.groups[root.port.instance]
  {
    RateIsTheSum(p, {root}, root);
    assert {root} - {root} == {};
  }

  // ---------------------------------------------------------------------------------------------
  // The tables of contributions
  // ---------------------------------------------------------------------------------------------

  ghost function Contributors(table: Table, port: PortKey): set<End> {
    if port in table then table[port].Keys else {}
  }

  ghost predicate Sound(p: Plan, table: Table) {
    forall q :: q in table ==> table[q] != map[] && forall e :: e in table[q] ==> table[q][e] == Hz(p, e)
  }

  /** One root more on each of some ports. */
  ghost predicate Added(table: Table, r: Table, ports: set<PortKey>, root: End) {
    forall q :: Contributors(r, q) == Contributors(table, q) + if q in ports then {root} else {}
  }

  lemma AddedTwice(a: Table, b: Table, c: Table, first: set<PortKey>, second: set<PortKey>, root: End)
    requires Added(a, b, first, root) && Added(b, c, second, root)
    ensures Added(a, c, first + second, root)
  {
  }

  function Contribute(table: Table, port: PortKey, root: End, hz: real): (r: Table)
    ensures Added(table, r, {port}, root)
  {
    table[port := (if port in table then table[port] else map[])[root := hz]]
  }

  lemma ContributeIsSound(p: Plan, table: Table, port: PortKey, root: End)
    requires Sound(p, table)
    ensures Sound(p, Contribute(table, port, root, Hz(p, root)))
  {
    var r := Contribute(table, port, root, Hz(p, root));
    assert root in r[port];
    forall q | q in r ensures r[q] != map[] && forall e :: e in r[q] ==> r[q][e] == Hz(p, e) {
      assert q != port ==> q in table && r[q] == table[q];
    }
  }

  /** Summing a table gives every port the rate of the roots that contribute to it. */
  method SumTable(ghost p: Plan, table: Table) returns (rates: map<PortKey, real>)
    requires Sound(p, table)
    ensures rates.Keys == table.Keys && forall q :: q in table ==> rates[q] == Rate(p, Contributors(table, q))
  {
    rates := map[];
    var todo := table.Keys;
    while todo != {}
      invariant todo <= table.Keys && rates.Keys == table.Keys - todo
      invariant forall q :: q in rates ==> rates[q] == Rate(p, Contributors(table, q))
      decreases todo
    {
      var q :| q in todo;
      var sum := Sum(table[q]);
      assert table[q] == map e | e in Contributors(table, q) :: Hz(p, e);
      rates, todo := rates[q := sum], todo - {q};
    }
  }

  // ---------------------------------------------------------------------------------------------
  // The worklist
  // ---------------------------------------------------------------------------------------------

  // The later async hops are not followed: the rate at which a queue is served is not the rate it is filled.
  function Onward(root: End, calls: seq<Call>): set<Item> {
    set c | c in calls && c.kind != Async :: Item(root, c.dest, c.kind)
  }

  ghost function Emitted(p: Plan, seen: set<Visit>, source: PortKey): set<End> {
    set v | v in seen && v.node.instance == source.instance && source.port in OutputsOf(p, v.node) :: v.root
  }

  ghost function Entered(done: set<Item>, port: PortKey): set<End> {
    set i | i in done && i.dest == port :: i.root
  }

  ghost predicate Records(p: Plan, table: Table, seen: set<Visit>) {
    Sound(p, table) && forall q :: Contributors(table, q) == Emitted(p, seen, q)
  }

  ghost predicate RecordsEntries(p: Plan, table: Table, done: set<Item>) {
    Sound(p, table) && forall q :: Contributors(table, q) == Entered(done, q)
  }

  predicate Known(p: Plan, i: Item) {
    i.root in Roots(p) && (i.dest, i.kind) in p.g.handlers
  }

  ghost predicate Visited(p: Plan, v: Visit) {
    v.root in Roots(p) && v.node in p.g.hops && Runs(p, v.root, v.node)
  }

  /** What is done has been carried on; what has been visited has queued its calls; `pending` is still to do. */
  ghost predicate Frontier(p: Plan, seen: set<Visit>, done: set<Item>, pending: set<Item>) {
    && (forall v :: v in seen ==> Visited(p, v))
    && (forall i :: i in done || i in pending ==> Known(p, i) && Arrives(p, i))
    && (forall i :: Starts(p, i) ==> i in done || i in pending)
    && (forall i, n :: i in done && n in Entries(p.g, i.dest, i.kind) ==> Visit(i.root, n, i.kind) in seen)
    && (forall v :: v in seen ==> Onward(v.root, Calls(p.g, v.node)) <= done + pending)
  }

  lemma OnwardArrives(p: Plan, v: Visit)
    requires Visited(p, v)
    ensures forall i :: i in Onward(v.root, Calls(p.g, v.node)) ==> Known(p, i) && Arrives(p, i)
  {
    var g := p.g;
    forall i | i in Onward(v.root, Calls(g, v.node)) ensures Known(p, i) && Arrives(p, i) {
      var c :| c in Calls(g, v.node) && c.kind != Async && i == Item(v.root, c.dest, c.kind);
      assert (c.dest, c.kind) in g.handlers;
    }
  }

  lemma EntryIsVisited(p: Plan, i: Item, n: Node)
    requires Known(p, i) && Arrives(p, i) && n in Entries(p.g, i.dest, i.kind)
    ensures Visited(p, Visit(i.root, n, i.kind))
  {
    var g := p.g;
    assert (i.dest, i.kind) in g.handlers;
    if Starts(p, i) {
      assert Chain(g, n, [], n);
    } else {
      var m, c :| Runs(p, i.root, m) && c in Calls(g, m) && c.kind != Async && i.dest == c.dest && i.kind == c.kind;
      var j, n0, calls :| Starts(p, j) && j.root == i.root && n0 in Entries(g, j.dest, j.kind)
          && Chain(g, n0, calls, m);
      ChainSnoc(g, n0, calls, m, c, n);
    }
  }

  lemma FrontierVisits(p: Plan, seen: set<Visit>, done: set<Item>, pending: set<Item>, v: Visit)
    requires Frontier(p, seen, done, pending) && Visited(p, v)
    ensures Frontier(p, seen + {v}, done, pending + Onward(v.root, Calls(p.g, v.node)))
  {
    OnwardArrives(p, v);
  }

  lemma FrontierFinishes(p: Plan, seen: set<Visit>, done: set<Item>, pending: set<Item>, i: Item)
    requires Frontier(p, seen, done, pending + {i})
    requires forall n :: n in Entries(p.g, i.dest, i.kind) ==> Visit(i.root, n, i.kind) in seen
    ensures Frontier(p, seen, done + {i}, pending)
  {
    assert (done + {i}) + pending == done + (pending + {i});
  }

  /** Everything a chain from a start gets to has been visited once nothing is pending. */
  lemma {:induction false} ChainIsVisited(p: Plan, seen: set<Visit>, done: set<Item>, i: Item, n0: Node,
      calls: seq<Call>, n: Node)
    requires Frontier(p, seen, done, {}) && Starts(p, i) && n0 in Entries(p.g, i.dest, i.kind)
    requires Chain(p.g, n0, calls, n)
    ensures exists kind :: Visit(i.root, n, kind) in seen
    decreases |calls|
  {
    if calls == [] {
      assert Visit(i.root, n, i.kind) in seen;
    } else {
      var g := p.g;
      var m :| Chain(g, n0, Init(calls), m) && ThreadStep(g, m, Last(calls), n);
      ChainIsVisited(p, seen, done, i, n0, Init(calls), m);
      var kind :| Visit(i.root, m, kind) in seen;
      var c := Last(calls);
      assert Item(i.root, c.dest, c.kind) in Onward(i.root, Calls(g, m));
      assert Visit(i.root, n, c.kind) in seen;
    }
  }

  lemma RunsIsVisited(p: Plan, seen: set<Visit>, done: set<Item>, root: End, n: Node)
    requires Frontier(p, seen, done, {})
    ensures Runs(p, root, n) <==> exists kind :: Visit(root, n, kind) in seen
  {
    if Runs(p, root, n) {
      var i, n0, calls :| Starts(p, i) && i.root == root && n0 in Entries(p.g, i.dest, i.kind)
                          && Chain(p.g, n0, calls, n);
      ChainIsVisited(p, seen, done, i, n0, calls, n);
    }
  }

  lemma EmittedIsExact(p: Plan, seen: set<Visit>, done: set<Item>, source: PortKey)
    requires Frontier(p, seen, done, {})
    ensures Emitted(p, seen, source) == OutputRoots(p, source)
  {
    forall e | e in OutputRoots(p, source) ensures e in Emitted(p, seen, source) {
      var n :| Runs(p, e, n) && n.instance == source.instance && n in p.outputs && source.port in p.outputs[n];
      RunsIsVisited(p, seen, done, e, n);
    }
  }

  lemma EnteredIsExact(p: Plan, seen: set<Visit>, done: set<Item>, port: PortKey)
    requires Frontier(p, seen, done, {})
    ensures Entered(done, port) == EntryRoots(p, port)
  {
    forall e | e in EntryRoots(p, port) ensures e in Entered(done, port) {
      var kind :| Arrives(p, Item(e, port, kind));
      var i := Item(e, port, kind);
      if !Starts(p, i) {
        var n, c :| Runs(p, e, n) && c in Calls(p.g, n) && c.kind != Async && port == c.dest && kind == c.kind;
        RunsIsVisited(p, seen, done, e, n);
        var k :| Visit(e, n, k) in seen;
        assert i in Onward(e, Calls(p.g, n));
      }
      assert i in done;
    }
    forall e | e in Entered(done, port) ensures e in EntryRoots(p, port) {
      var i :| i in done && i.dest == port && i.root == e;
      assert i == Item(e, port, i.kind);
    }
  }

  lemma ToSetSnoc<T>(s: seq<T>, x: T)
    ensures ToSet(s + [x]) == ToSet(s) + {x}
  {
  }

  method Queue(root: End, calls: seq<Call>, work: seq<Item>) returns (r: seq<Item>)
    ensures ToSet(r) == ToSet(work) + Onward(root, calls)
  {
    r := work;
    for i := 0 to |calls|
      invariant ToSet(r) == ToSet(work) + Onward(root, calls[..i])
    {
      var c := calls[i];
      assert calls[..i + 1] == calls[..i] + [c];
      assert Onward(root, calls[..i + 1]) == Onward(root, calls[..i])
          + if c.kind != Async then {Item(root, c.dest, c.kind)} else {};
      if c.kind != Async {
        ToSetSnoc(r, Item(root, c.dest, c.kind));
        r := r + [Item(root, c.dest, c.kind)];
      }
    }
    assert calls[..|calls|] == calls;
  }

  function PortsOf(n: Node, outs: seq<Name>): set<PortKey> {
    set o | o in outs :: PortKey(n.instance, o)
  }

  lemma PortsSnoc(n: Node, outs: seq<Name>, i: nat)
    requires i < |outs|
    ensures PortsOf(n, outs[..i + 1]) == PortsOf(n, outs[..i]) + {PortKey(n.instance, outs[i])}
  {
  }

  method Offer(p: Plan, root: End, n: Node, table: Table) returns (r: Table)
    requires Sound(p, table)
    ensures Sound(p, r) && Added(table, r, PortsOf(n, OutputsOf(p, n)), root)
  {
    r := table;
    var outs := OutputsOf(p, n);
    for i := 0 to |outs|
      invariant Sound(p, r) && Added(table, r, PortsOf(n, outs[..i]), root)
    {
      var port := PortKey(n.instance, outs[i]);
      ghost var before := r;
      ContributeIsSound(p, r, port, root);
      r := Contribute(r, port, root, Hz(p, root));
      AddedTwice(table, before, r, PortsOf(n, outs[..i]), {port}, root);
      PortsSnoc(n, outs, i);
    }
    assert outs[..|outs|] == outs;
  }

  ghost function Universe(p: Plan): set<Visit> {
    set e, n, i | e in Roots(p) && n in p.g.hops && i in p.g.handlers :: Visit(e, n, i.1)
  }

  lemma RecordsVisit(p: Plan, table: Table, table': Table, seen: set<Visit>, v: Visit)
    requires Records(p, table, seen) && Sound(p, table')
        && Added(table, table', PortsOf(v.node, OutputsOf(p, v.node)), v.root)
    ensures Records(p, table', seen + {v})
  {
    forall q ensures Contributors(table', q) == Emitted(p, seen + {v}, q) {
      assert Contributors(table, q) == Emitted(p, seen, q);
      EmittedOneMore(p, seen, v, q);
    }
  }

  lemma EmittedOneMore(p: Plan, seen: set<Visit>, v: Visit, q: PortKey)
    ensures Emitted(p, seen + {v}, q)
         == Emitted(p, seen, q) + if q in PortsOf(v.node, OutputsOf(p, v.node)) then {v.root} else {}
  {
    assert q in PortsOf(v.node, OutputsOf(p, v.node)) <==>
        v.node.instance == q.instance && q.port in OutputsOf(p, v.node);
  }

  /** Runs a handler for a root for the first time: its outputs offer the rate, and its calls are queued. */
  method VisitNode(p: Plan, v: Visit, ghost seen: set<Visit>, table: Table, work: seq<Item>,
      ghost done: set<Item>, ghost now: Item)
    returns (table': Table, work': seq<Item>)
    requires Frontier(p, seen, done, ToSet(work) + {now}) && Records(p, table, seen) && Visited(p, v)
    ensures Frontier(p, seen + {v}, done, ToSet(work') + {now}) && Records(p, table', seen + {v})
  {
    FrontierVisits(p, seen, done, ToSet(work) + {now}, v);
    table' := Offer(p, v.root, v.node, table);
    RecordsVisit(p, table, table', seen, v);
    work' := Queue(v.root, Calls(p.g, v.node), work);
    assert ToSet(work') + {now} == (ToSet(work) + {now}) + Onward(v.root, Calls(p.g, v.node));
  }

  /** Either nothing was visited and nothing queued, or there is less left to visit. */
  ghost predicate Further(p: Plan, seen: set<Visit>, work: seq<Item>, seen': set<Visit>, work': seq<Item>) {
    (seen' == seen && work' == work) || Universe(p) - seen' < Universe(p) - seen
  }

  /** Runs one of the handlers an item enters, unless this root has run it the same way before. */
  method VisitEntry(p: Plan, i: Item, n: Node, seen: set<Visit>, table: Table, work: seq<Item>,
      ghost done: set<Item>, ghost seen0: set<Visit>, ghost work0: seq<Item>)
    returns (seen': set<Visit>, table': Table, work': seq<Item>)
    requires Frontier(p, seen, done, ToSet(work) + {i}) && Records(p, table, seen)
    requires n in Entries(p.g, i.dest, i.kind) && seen0 <= seen && Further(p, seen0, work0, seen, work)
    ensures Frontier(p, seen', done, ToSet(work') + {i}) && Records(p, table', seen')
    ensures seen <= seen' && Visit(i.root, n, i.kind) in seen' && Further(p, seen0, work0, seen', work')
  {
    seen', table', work' := seen, table, work;
    var v := Visit(i.root, n, i.kind);
    if v !in seen {
      EntryIsNew(p, i, n, seen0, seen, ToSet(work) + {i}, done);
      table', work' := VisitNode(p, v, seen, table, work, done, i);
      seen' := seen + {v};
    }
  }

  /** Runs the handlers one item enters. */
  method VisitEntries(p: Plan, i: Item, seen: set<Visit>, table: Table, work: seq<Item>, ghost done: set<Item>)
    returns (seen': set<Visit>, table': Table, work': seq<Item>)
    requires Frontier(p, seen, done, ToSet(work) + {i}) && Records(p, table, seen)
    ensures Frontier(p, seen', done, ToSet(work') + {i}) && Records(p, table', seen')
    ensures forall n :: n in Entries(p.g, i.dest, i.kind) ==> Visit(i.root, n, i.kind) in seen'
    ensures Further(p, seen, work, seen', work')
  {
    seen', table', work' := seen, table, work;
    var nodes := Entries(p.g, i.dest, i.kind);
    for j := 0 to |nodes|
      invariant Frontier(p, seen', done, ToSet(work') + {i}) && Records(p, table', seen')
      invariant seen <= seen' && forall k :: 0 <= k < j ==> Visit(i.root, nodes[k], i.kind) in seen'
      invariant Further(p, seen, work, seen', work')
    {
      seen', table', work' := VisitEntry(p, i, nodes[j], seen', table', work', done, seen, work);
    }
  }

  lemma EntryIsNew(p: Plan, i: Item, n: Node, before: set<Visit>, seen: set<Visit>, pending: set<Item>, done: set<Item>)
    requires Frontier(p, seen, done, pending) && i in pending && before <= seen
    requires n in Entries(p.g, i.dest, i.kind) && Visit(i.root, n, i.kind) !in seen
    ensures Visited(p, Visit(i.root, n, i.kind))
    ensures Universe(p) - (seen + {Visit(i.root, n, i.kind)}) < Universe(p) - before
  {
    var v := Visit(i.root, n, i.kind);
    EntryIsVisited(p, i, n);
    assert (i.dest, i.kind) in p.g.handlers && v in Universe(p);
    assert v in Universe(p) - before && v !in Universe(p) - (seen + {v});
  }

  method Begin(p: Plan) returns (work: seq<Item>)
    ensures forall i :: i in work <==> Starts(p, i)
  {
    work := [];
    forall kind: Kind ensures kind in ALL_KINDS {
      AllKinds(kind);
    }
    for k := 0 to |p.wiring|
      invariant forall i :: i in work <==> exists c :: c in p.wiring[..k] && StartedBy(p, c, i)
    {
      var c := p.wiring[k];
      assert p.wiring[..k + 1] == p.wiring[..k] + [c];
      work := work + StartItems(p, c, ALL_KINDS);
    }
    assert p.wiring[..|p.wiring|] == p.wiring;
  }

  ghost predicate IsEntryTable(p: Plan, table: Table) {
    Sound(p, table) && forall q :: Contributors(table, q) == EntryRoots(p, q)
  }

  ghost predicate IsOutputTable(p: Plan, table: Table) {
    Sound(p, table) && forall q :: Contributors(table, q) == OutputRoots(p, q)
  }

  lemma TablesAreExact(p: Plan, seen: set<Visit>, done: set<Item>, entries: Table, outputs: Table)
    requires Frontier(p, seen, done, {}) && Records(p, outputs, seen) && RecordsEntries(p, entries, done)
    ensures IsEntryTable(p, entries) && IsOutputTable(p, outputs)
  {
    forall q ensures Emitted(p, seen, q) == OutputRoots(p, q) && Entered(done, q) == EntryRoots(p, q) {
      EmittedIsExact(p, seen, done, q);
      EnteredIsExact(p, seen, done, q);
    }
  }

  lemma RecordsEntry(p: Plan, entries: Table, done: set<Item>, i: Item)
    requires RecordsEntries(p, entries, done)
    ensures RecordsEntries(p, Contribute(entries, i.dest, i.root, Hz(p, i.root)), done + {i})
  {
    ContributeIsSound(p, entries, i.dest, i.root);
    forall q ensures Entered(done + {i}, q) == Entered(done, q) + if q == i.dest then {i.root} else {} {
      EnteredOneMore(done, i, q);
    }
  }

  lemma EnteredOneMore(done: set<Item>, i: Item, q: PortKey)
    ensures Entered(done + {i}, q) == Entered(done, q) + if q == i.dest then {i.root} else {}
  {
  }

  /** Carries every root forward until nothing is left to do. */
  method Propagate(p: Plan) returns (entries: Table, outputs: Table)
    ensures IsEntryTable(p, entries) && IsOutputTable(p, outputs)
  {
    entries, outputs := map[], map[];
    var work := Begin(p);
    var seen: set<Visit> := {};
    ghost var done: set<Item> := {};
    while work != []
      invariant Frontier(p, seen, done, ToSet(work))
      invariant Records(p, outputs, seen) && RecordsEntries(p, entries, done)
      decreases Universe(p) - seen, |work|
    {
      var i, rest := work[0], work[1..];
      assert ToSet(work) == ToSet(rest) + {i};
      RecordsEntry(p, entries, done, i);
      entries := Contribute(entries, i.dest, i.root, Hz(p, i.root));
      seen, outputs, work := VisitEntries(p, i, seen, outputs, rest, done);
      FrontierFinishes(p, seen, done, ToSet(work), i);
      done := done + {i};
    }
    assert ToSet(work) == {};
    TablesAreExact(p, seen, done, entries, outputs);
  }

  // ---------------------------------------------------------------------------------------------
  // The rates
  // ---------------------------------------------------------------------------------------------

  /**
   * The rate of one end of a connection: an output port that handlers offer gets the sum over the roots that
   * reach it, a root its own frequency, and any other end keeps what it had.
   */
  ghost predicate IsRate(p: Plan, before: map<End, real>, after: map<End, real>, e: End) {
    if e.index == None && OutputRoots(p, e.port) != {} then e in after && after[e] == Rate(p, OutputRoots(p, e.port))
    else if e in Roots(p) then e in after && after[e] == Hz(p, e)
    else (e in after <==> e in before) && (e in before ==> after[e] == before[e])
  }

  lemma TableHolds(p: Plan, table: Table, rates: map<PortKey, real>, q: PortKey, roots: set<End>)
    requires Sound(p, table) && Contributors(table, q) == roots && rates.Keys == table.Keys
    requires q in table ==> rates[q] == Rate(p, Contributors(table, q))
    ensures q in rates <==> roots != {}
    ensures q in rates ==> rates[q] == Rate(p, roots)
  {
    assert q in table ==> table[q] != map[];
  }

  lemma ProductionIsRate(p: Plan, before: map<End, real>, offered: map<PortKey, real>, e: End)
    requires e.port in offered <==> OutputRoots(p, e.port) != {}
    requires e.port in offered ==> offered[e.port] == Rate(p, OutputRoots(p, e.port))
    ensures IsRate(p, before, before + RootRates(p) + OfferedRates(offered), e)
  {
    assert e in RootRates(p) <==> e in Roots(p);
  }

  function RootRates(p: Plan): map<End, real> {
    map e | e in Roots(p) :: Hz(p, e)
  }

  function OfferedRates(offered: map<PortKey, real>): (r: map<End, real>)
    ensures forall e :: e in r <==> e.index == None && e.port in offered
    ensures forall e :: e in r ==> r[e] == offered[e.port]
  {
    map q | q in offered :: End(q, None) := offered[q]
  }

  method PropagateMemberRates(p: Plan, before: map<End, real>)
    returns (entryRates: map<PortKey, real>, production: map<End, real>)
    ensures forall q :: q in entryRates <==> EntryRoots(p, q) != {}
    ensures forall q :: q in entryRates ==> entryRates[q] == Rate(p, EntryRoots(p, q))
    ensures forall e :: IsRate(p, before, production, e)
    ensures forall e :: IsRoot(p, e) && (e.index.Some? || OutputRoots(p, e.port) == {}) ==>
              e in production && production[e] == p.groups[e.port.instance]
    ensures forall q, root: End :: OutputRoots(p, q) == {root} ==>
              root.port.instance in p.groups && End(q, None) in production
              && production[End(q, None)] == p.groups[root.port.instance]
    ensures forall q, root: End :: EntryRoots(p, q) == {root} ==>
              root.port.instance in p.groups && q in entryRates && entryRates[q] == p.groups[root.port.instance]
  {
    var entries, outputs := Propagate(p);
    entryRates := SumTable(p, entries);
    var offered := SumTable(p, outputs);
    production := before + RootRates(p) + OfferedRates(offered);
    forall q ensures q in entryRates <==> EntryRoots(p, q) != {}
             ensures q in entryRates ==> entryRates[q] == Rate(p, EntryRoots(p, q))
    {
      TableHolds(p, entries, entryRates, q, EntryRoots(p, q));
    }
    forall e ensures IsRate(p, before, production, e) {
      TableHolds(p, outputs, offered, e.port, OutputRoots(p, e.port));
      ProductionIsRate(p, before, offered, e);
    }
    OneRootRates(p, before, entryRates, production);
  }

  /** A root keeps its group's frequency, and passes it on to a port that no other root reaches. */
  lemma OneRootRates(p: Plan, before: map<End, real>, entryRates: map<PortKey, real>, production: map<End, real>)
    requires forall e :: IsRate(p, before, production, e)
    requires forall q :: q in entryRates <==> EntryRoots(p, q) != {}
    requires forall q :: q in entryRates ==> entryRates[q] == Rate(p, EntryRoots(p, q))
    ensures forall e :: IsRoot(p, e) && (e.index.Some? || OutputRoots(p, e.port) == {}) ==>
              e in production && production[e] == p.groups[e.port.instance]
    ensures forall q, root: End :: OutputRoots(p, q) == {root} ==>
              root.port.instance in p.groups && End(q, None) in production
              && production[End(q, None)] == p.groups[root.port.instance]
    ensures forall q, root: End :: EntryRoots(p, q) == {root} ==>
              root.port.instance in p.groups && q in entryRates && entryRates[q] == p.groups[root.port.instance]
  {
    forall e | IsRoot(p, e) && (e.index.Some? || OutputRoots(p, e.port) == {})
      ensures e in production && production[e] == p.groups[e.port.instance]
    {
      assert IsRate(p, before, production, e);
    }
    forall q, root: End | OutputRoots(p, q) == {root}
      ensures root.port.instance in p.groups && End(q, None) in production
           && production[End(q, None)] == p.groups[root.port.instance]
    {
      assert root in OutputRoots(p, q) && IsRoot(p, root);
      assert IsRate(p, before, production, End(q, None));
      RateOfOne(p, root);
    }
    forall q, root: End | EntryRoots(p, q) == {root}
      ensures root.port.instance in p.groups && q in entryRates && entryRates[q] == p.groups[root.port.instance]
    {
      assert root in EntryRoots(p, q) && IsRoot(p, root);
      RateOfOne(p, root);
    }
  }
}
