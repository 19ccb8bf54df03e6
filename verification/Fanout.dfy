/**
 * Queue fan-out (checks.py): how many messages one dispatch of a handler puts on each queue, counted by a
 * recursion that follows every call on the handler's own thread.
 */
module Fanout {
  import opened Basics
  import opened Graph

  const DEPTH: nat := 12

  // Which of a handler's calls is followed, and which of the handlers behind the port it lands on. Two
  // connections between the same two ports are two calls.
  datatype Turn = Turn(call: nat, entry: nat)

  // A route through the handlers, and the position of the call it ends with.
  datatype Route = Route(turns: seq<Turn>, last: nat)

  // The calls a route may end with: a message onto a queue, or a call through a port array of several ports.
  datatype Aim = Message(target: Name) | Fanned(target: Name, wide: set<PortKey>)

  predicate Hits(aim: Aim, c: Call) {
    c.dest.instance == aim.target
      && match aim case Message(_) => c.kind == Async case Fanned(_, wide) => c.source in wide
  }

  predicate Takes(g: Graph, m: Node, turn: Turn, n: Node) {
    turn.call < |Calls(g, m)| &&
    var c := Calls(g, m)[turn.call];
    c.kind != Async && turn.entry < |Entries(g, c.dest, c.kind)| && n == Entries(g, c.dest, c.kind)[turn.entry]
  }

  /**
   * The route goes from `n` through the handlers `nodes`, none of them twice or seen before, in no more
   * calls than the bound allows, and ends with a call that hits the aim.
   */
  ghost predicate IsRoute(g: Graph, aim: Aim, n: Node, seen: set<Node>, depth: nat, r: Route, nodes: seq<Node>) {
    && |nodes| == |r.turns| + 1 && nodes[0] == n
    && (forall i :: 0 <= i < |r.turns| ==> Takes(g, nodes[i], r.turns[i], nodes[i + 1]))
    && NoDup(nodes) && (forall m :: m in nodes ==> m !in seen)
    && depth + |r.turns| <= 12
    && r.last < |Calls(g, Last(nodes))| && Hits(aim, Calls(g, Last(nodes))[r.last])
  }

  ghost predicate Arrives(g: Graph, aim: Aim, n: Node, seen: set<Node>, depth: nat, r: Route) {
    exists nodes :: IsRoute(g, aim, n, seen, depth, r, nodes)
  }

  // ---------------------------------------------------------------------------------------------
  // The finite set of routes
  // ---------------------------------------------------------------------------------------------

  function Extend(turn: Turn, r: Route): Route {
    Route([turn] + r.turns, r.last)
  }

  ghost function Ends(g: Graph, aim: Aim, n: Node): set<Route> {
    set i | 0 <= i < |Calls(g, n)| && Hits(aim, Calls(g, n)[i]) :: Route([], i)
  }

  ghost function Routes(g: Graph, aim: Aim, n: Node, seen: set<Node>, depth: nat): set<Route>
    decreases DEPTH + 1 - depth
  {
    if n in seen || depth > DEPTH then {}
    else
      Ends(g, aim, n)
      + set turn, r | turn in Turns(g, n) && r in Routes(g, aim, Target(g, n, turn), seen + {n}, depth + 1)
          :: Extend(turn, r)
  }

  ghost function Turns(g: Graph, n: Node): (r: set<Turn>)
    ensures forall t :: t in r <==> exists m :: Takes(g, n, t, m)
  {
    var r := set i, j | 0 <= i < |Calls(g, n)| && Calls(g, n)[i].kind != Async
                        && 0 <= j < |Entries(g, Calls(g, n)[i].dest, Calls(g, n)[i].kind)| :: Turn(i, j);
    assert forall t, m :: Takes(g, n, t, m) ==> t in r;
    assert forall t :: t in r ==>
        Takes(g, n, t, Entries(g, Calls(g, n)[t.call].dest, Calls(g, n)[t.call].kind)[t.entry]);
    r
  }

  ghost function Target(g: Graph, n: Node, turn: Turn): (m: Node)
    requires turn in Turns(g, n)
    ensures Takes(g, n, turn, m)
  {
    var m :| Takes(g, n, turn, m);
    m
  }

  lemma ConsRoute(g: Graph, aim: Aim, n: Node, seen: set<Node>, depth: nat, turn: Turn, r: Route, nodes: seq<Node>)
    requires n !in seen && nodes != [] && Takes(g, n, turn, nodes[0])
    requires IsRoute(g, aim, nodes[0], seen + {n}, depth + 1, r, nodes)
    ensures IsRoute(g, aim, n, seen, depth, Extend(turn, r), [n] + nodes)
  {
    var longer, more := Extend(turn, r), [n] + nodes;
    forall i | 0 <= i < |longer.turns| ensures Takes(g, more[i], longer.turns[i], more[i + 1]) {
      assert i > 0 ==> longer.turns[i] == r.turns[i - 1];
    }
    assert n !in nodes;
    assert Last(more) == Last(nodes);
  }

  lemma UnconsRoute(g: Graph, aim: Aim, n: Node, seen: set<Node>, depth: nat, turn: Turn, r: Route, nodes: seq<Node>)
    requires IsRoute(g, aim, n, seen, depth, Extend(turn, r), nodes)
    ensures |nodes| > 1 && Takes(g, n, turn, nodes[1])
    ensures IsRoute(g, aim, nodes[1], seen + {n}, depth + 1, r, nodes[1..])
  {
    var longer, less := Extend(turn, r), nodes[1..];
    assert Takes(g, nodes[0], longer.turns[0], nodes[1]);
    forall i | 0 <= i < |r.turns| ensures Takes(g, less[i], r.turns[i], less[i + 1]) {
      assert Takes(g, nodes[i + 1], longer.turns[i + 1], nodes[i + 2]);
    }
    assert Last(less) == Last(nodes);
  }

  lemma RouteEnd(g: Graph, aim: Aim, n: Node, seen: set<Node>, depth: nat, r: Route)
    requires r.turns == []
    ensures Arrives(g, aim, n, seen, depth, r) <==> n !in seen && depth <= DEPTH && r in Ends(g, aim, n)
  {
    if n !in seen && depth <= DEPTH && r in Ends(g, aim, n) {
      assert IsRoute(g, aim, n, seen, depth, r, [n]);
    }
  }

  lemma ArriveOn(g: Graph, aim: Aim, n: Node, seen: set<Node>, depth: nat, turn: Turn, r: Route)
    ensures Arrives(g, aim, n, seen, depth, Extend(turn, r)) <==>
      n !in seen && turn in Turns(g, n) && Arrives(g, aim, Target(g, n, turn), seen + {n}, depth + 1, r)
  {
    if n !in seen && turn in Turns(g, n) && Arrives(g, aim, Target(g, n, turn), seen + {n}, depth + 1, r) {
      var nodes :| IsRoute(g, aim, Target(g, n, turn), seen + {n}, depth + 1, r, nodes);
      ConsRoute(g, aim, n, seen, depth, turn, r, nodes);
    }
    forall nodes | IsRoute(g, aim, n, seen, depth, Extend(turn, r), nodes)
      ensures n !in seen && turn in Turns(g, n) && Arrives(g, aim, Target(g, n, turn), seen + {n}, depth + 1, r)
    {
      UnconsRoute(g, aim, n, seen, depth, turn, r, nodes);
      assert nodes[0] in nodes && Target(g, n, turn) == nodes[1];
    }
  }

  /** The set holds every route there is, and nothing else. */
  lemma {:induction false} RoutesAreExact(g: Graph, aim: Aim, n: Node, seen: set<Node>, depth: nat, r: Route)
    ensures r in Routes(g, aim, n, seen, depth) <==> Arrives(g, aim, n, seen, depth, r)
    decreases DEPTH + 1 - depth
  {
    if depth > DEPTH {
    } else if r.turns == [] {
      RouteEnd(g, aim, n, seen, depth, r);
    } else {
      var turn, rest := r.turns[0], Route(r.turns[1..], r.last);
      assert r == Extend(turn, rest);
      ArriveOn(g, aim, n, seen, depth, turn, rest);
      if n !in seen {
        RoutesUnfold(g, aim, n, seen, depth, turn, rest);
        if turn in Turns(g, n) {
          RoutesAreExact(g, aim, Target(g, n, turn), seen + {n}, depth + 1, rest);
        }
      }
    }
  }

  lemma RoutesUnfold(g: Graph, aim: Aim, n: Node, seen: set<Node>, depth: nat, turn: Turn, r: Route)
    requires n !in seen && depth <= DEPTH
    ensures Extend(turn, r) in Routes(g, aim, n, seen, depth)
            <==> turn in Turns(g, n) && r in Routes(g, aim, Target(g, n, turn), seen + {n}, depth + 1)
  {
    forall t, q | Extend(t, q) == Extend(turn, r) ensures t == turn && q == r {
      assert Extend(t, q).turns[0] == t && Extend(t, q).turns[1..] == q.turns;
      assert Extend(turn, r).turns[0] == turn && Extend(turn, r).turns[1..] == r.turns;
    }
  }

  // ---------------------------------------------------------------------------------------------
  // Counting one call, and one entry, at a time
  // ---------------------------------------------------------------------------------------------

  // Position (i, 0) is before call i; (i, 1) is after the call itself; (i, k + 1) is after k of the handlers it enters.
  predicate Before(r: Route, i: nat, j: nat) {
    if r.turns == [] then r.last < i || (r.last == i && j > 0)
    else r.turns[0].call < i || (r.turns[0].call == i && r.turns[0].entry + 1 < j)
  }

  ghost function Past(g: Graph, aim: Aim, n: Node, seen: set<Node>, depth: nat, i: nat, j: nat): set<Route> {
    set r | r in Routes(g, aim, n, seen, depth) && Before(r, i, j)
  }

  ghost function Prefixed(turn: Turn, rs: set<Route>): set<Route> {
    set r | r in rs :: Extend(turn, r)
  }

  lemma {:induction false} PrefixedSize(turn: Turn, rs: set<Route>)
    ensures |Prefixed(turn, rs)| == |rs|
  {
    if r :| r in rs {
      PrefixedSize(turn, rs - {r});
      forall q | q in rs - {r} ensures Extend(turn, q) != Extend(turn, r) {
        assert Extend(turn, q).turns[1..] == q.turns && Extend(turn, r).turns[1..] == r.turns;
      }
      assert Prefixed(turn, rs) == Prefixed(turn, rs - {r}) + {Extend(turn, r)};
    }
  }

  /** The routes that enter one more handler are the routes from that handler, one turn longer. */
  lemma MemberPastEntry(g: Graph, aim: Aim, n: Node, seen: set<Node>, depth: nat, i: nat, k: nat, m: Node, r: Route)
    requires n !in seen && depth <= DEPTH && Takes(g, n, Turn(i, k), m)
    ensures r in Past(g, aim, n, seen, depth, i, k + 2) && r !in Past(g, aim, n, seen, depth, i, k + 1)
            <==> r in Prefixed(Turn(i, k), Routes(g, aim, m, seen + {n}, depth + 1))
  {
    var turn := Turn(i, k);
    assert Target(g, n, turn) == m;
    if r.turns != [] && r.turns[0] == turn {
      var rest := Route(r.turns[1..], r.last);
      assert r == Extend(turn, rest);
      RoutesUnfold(g, aim, n, seen, depth, turn, rest);
    }
    if q :| q in Routes(g, aim, m, seen + {n}, depth + 1) && r == Extend(turn, q) {
      RoutesUnfold(g, aim, n, seen, depth, turn, q);
    }
  }

  lemma PastEntry(g: Graph, aim: Aim, n: Node, seen: set<Node>, depth: nat, i: nat, k: nat, m: Node)
    requires n !in seen && depth <= DEPTH && Takes(g, n, Turn(i, k), m)
    ensures |Past(g, aim, n, seen, depth, i, k + 2)|
            == |Past(g, aim, n, seen, depth, i, k + 1)| + |Routes(g, aim, m, seen + {n}, depth + 1)|
  {
    var before, after := Past(g, aim, n, seen, depth, i, k + 1), Past(g, aim, n, seen, depth, i, k + 2);
    var more := Prefixed(Turn(i, k), Routes(g, aim, m, seen + {n}, depth + 1));
    PrefixedSize(Turn(i, k), Routes(g, aim, m, seen + {n}, depth + 1));
    forall r ensures r in after && r !in before <==> r in more {
      MemberPastEntry(g, aim, n, seen, depth, i, k, m, r);
    }
    assert before <= after;
    assert after == before + more && before !! more;
  }

  lemma NonePast(g: Graph, aim: Aim, n: Node, seen: set<Node>, depth: nat)
    ensures Past(g, aim, n, seen, depth, 0, 0) == {}
  {
  }

  lemma MemberPastCall(g: Graph, aim: Aim, n: Node, seen: set<Node>, depth: nat, i: nat, r: Route)
    requires n !in seen && depth <= DEPTH && i < |Calls(g, n)|
    ensures r in Past(g, aim, n, seen, depth, i, 1) <==>
              r in Past(g, aim, n, seen, depth, i, 0) || (r == Route([], i) && Hits(aim, Calls(g, n)[i]))
  {
    if r.turns == [] {
      assert r == Route([], r.last);
      assert r in Routes(g, aim, n, seen, depth) <==> r in Ends(g, aim, n);
    }
  }

  lemma PastCall(g: Graph, aim: Aim, n: Node, seen: set<Node>, depth: nat, i: nat)
    requires n !in seen && depth <= DEPTH && i < |Calls(g, n)|
    ensures |Past(g, aim, n, seen, depth, i, 1)|
            == |Past(g, aim, n, seen, depth, i, 0)| + if Hits(aim, Calls(g, n)[i]) then 1 else 0
  {
    var now := if Hits(aim, Calls(g, n)[i]) then {Route([], i)} else {};
    forall r ensures r in Past(g, aim, n, seen, depth, i, 1) <==> r in Past(g, aim, n, seen, depth, i, 0) || r in now {
      MemberPastCall(g, aim, n, seen, depth, i, r);
    }
    assert Past(g, aim, n, seen, depth, i, 1) == Past(g, aim, n, seen, depth, i, 0) + now;
    assert Route([], i) !in Past(g, aim, n, seen, depth, i, 0);
  }

  lemma PastLast(g: Graph, aim: Aim, n: Node, seen: set<Node>, depth: nat, i: nat)
    requires n !in seen && depth <= DEPTH && i < |Calls(g, n)|
    ensures Past(g, aim, n, seen, depth, i + 1, 0) == Past(g, aim, n, seen, depth, i, |Entered(g, Calls(g, n)[i])| + 1)
  {
  }

  function Entered(g: Graph, c: Call): seq<Node> {
    if c.kind == Async then [] else Entries(g, c.dest, c.kind)
  }

  // The count the recursion makes, as a number.
  function Number(g: Graph, aim: Aim, n: Node, seen: set<Node>, depth: nat): nat
    decreases DEPTH + 1 - depth, 0
  {
    if n in seen || depth > DEPTH then 0 else NumberOfCalls(g, aim, Calls(g, n), seen + {n}, depth + 1)
  }

  function NumberOfCalls(g: Graph, aim: Aim, calls: seq<Call>, seen: set<Node>, depth: nat): nat
    requires depth <= DEPTH + 1
    decreases DEPTH + 1 - depth, 2, |calls|
  {
    if calls == [] then 0
    else NumberOfCalls(g, aim, Init(calls), seen, depth) + (if Hits(aim, Last(calls)) then 1 else 0)
         + NumberOfNodes(g, aim, Entered(g, Last(calls)), seen, depth)
  }

  function NumberOfNodes(g: Graph, aim: Aim, nodes: seq<Node>, seen: set<Node>, depth: nat): nat
    requires depth <= DEPTH + 1
    decreases DEPTH + 1 - depth, 1, |nodes|
  {
    if nodes == [] then 0
    else NumberOfNodes(g, aim, Init(nodes), seen, depth) + Number(g, aim, Last(nodes), seen, depth)
  }

  /** The number is the size of the set of routes: no route is counted twice and none is left out. */
  lemma {:induction false} NumberIsExact(g: Graph, aim: Aim, n: Node, seen: set<Node>, depth: nat)
    ensures Number(g, aim, n, seen, depth) == |Routes(g, aim, n, seen, depth)|
    decreases DEPTH + 1 - depth, 0, 1
  {
    if n in seen || depth > DEPTH {
      NothingFromHere(g, aim, n, seen, depth);
    } else {
      NumberIsExactInside(g, aim, n, seen, depth);
    }
  }

  lemma {:induction false} NumberIsExactInside(g: Graph, aim: Aim, n: Node, seen: set<Node>, depth: nat)
    requires n !in seen && depth <= DEPTH
    ensures Number(g, aim, n, seen, depth) == |Routes(g, aim, n, seen, depth)|
    decreases DEPTH + 1 - depth, 0, 0
  {
    NumberOfCallsIsExact(g, aim, Calls(g, n), seen + {n}, depth + 1);
    SizeIsOfCalls(g, aim, n, seen, depth);
    NumberIsOfCalls(g, aim, n, seen, depth);
  }

  lemma NothingFromHere(g: Graph, aim: Aim, n: Node, seen: set<Node>, depth: nat)
    requires n in seen || depth > DEPTH
    ensures Number(g, aim, n, seen, depth) == 0 && Routes(g, aim, n, seen, depth) == {}
  {
  }

  lemma NumberIsOfCalls(g: Graph, aim: Aim, n: Node, seen: set<Node>, depth: nat)
    requires n !in seen && depth <= DEPTH
    ensures Number(g, aim, n, seen, depth) == NumberOfCalls(g, aim, Calls(g, n), seen + {n}, depth + 1)
  {
  }

  lemma {:induction false} NumberOfCallsIsExact(g: Graph, aim: Aim, calls: seq<Call>, seen: set<Node>, depth: nat)
    requires depth <= DEPTH + 1
    ensures NumberOfCalls(g, aim, calls, seen, depth) == SizeOfCalls(g, aim, calls, seen, depth)
    decreases DEPTH + 1 - depth, 2, |calls|
  {
    if calls != [] {
      NumberOfCallsIsExact(g, aim, Init(calls), seen, depth);
      NumberOfNodesIsExact(g, aim, Entered(g, Last(calls)), seen, depth);
    }
  }

  // The routes that end with some calls or go beyond them, all together.
  ghost function SizeOfCalls(g: Graph, aim: Aim, calls: seq<Call>, seen: set<Node>, depth: nat): nat {
    if calls == [] then 0
    else SizeOfCalls(g, aim, Init(calls), seen, depth) + (if Hits(aim, Last(calls)) then 1 else 0)
         + SizeOfNodes(g, aim, Entered(g, Last(calls)), seen, depth)
  }

  lemma SizeIsOfCalls(g: Graph, aim: Aim, n: Node, seen: set<Node>, depth: nat)
    requires n !in seen && depth <= DEPTH
    ensures |Routes(g, aim, n, seen, depth)| == SizeOfCalls(g, aim, Calls(g, n), seen + {n}, depth + 1)
  {
    var calls := Calls(g, n);
    PastCalls(g, aim, n, seen, depth, calls, |calls|);
    assert calls[..|calls|] == calls;
    assert Past(g, aim, n, seen, depth, |calls|, 0) == Routes(g, aim, n, seen, depth);
  }

  lemma {:induction false} PastCalls(g: Graph, aim: Aim, n: Node, seen: set<Node>, depth: nat, calls: seq<Call>, i: nat)
    requires n !in seen && depth <= DEPTH && calls == Calls(g, n) && i <= |calls|
    ensures |Past(g, aim, n, seen, depth, i, 0)| == SizeOfCalls(g, aim, calls[..i], seen + {n}, depth + 1)
    decreases i
  {
    if i == 0 {
      NonePast(g, aim, n, seen, depth);
    } else {
      var k := i - 1;
      PastCalls(g, aim, n, seen, depth, calls, k);
      PastOneMore(g, aim, n, seen, depth, k);
      CallsSnoc(g, aim, calls, seen + {n}, depth + 1, k);
    }
  }

  lemma CallsSnoc(g: Graph, aim: Aim, calls: seq<Call>, seen: set<Node>, depth: nat, i: nat)
    requires i < |calls|
    ensures SizeOfCalls(g, aim, calls[..i + 1], seen, depth)
            == SizeOfCalls(g, aim, calls[..i], seen, depth) + (if Hits(aim, calls[i]) then 1 else 0)
               + SizeOfNodes(g, aim, Entered(g, calls[i]), seen, depth)
  {
    assert Init(calls[..i + 1]) == calls[..i];
  }

  /** The routes past one more call: the call itself, and everything beyond the handlers it enters. */
  lemma PastOneMore(g: Graph, aim: Aim, n: Node, seen: set<Node>, depth: nat, i: nat)
    requires n !in seen && depth <= DEPTH && i < |Calls(g, n)|
    ensures |Past(g, aim, n, seen, depth, i + 1, 0)| == |Past(g, aim, n, seen, depth, i, 0)|
              + (if Hits(aim, Calls(g, n)[i]) then 1 else 0)
              + SizeOfNodes(g, aim, Entered(g, Calls(g, n)[i]), seen + {n}, depth + 1)
  {
    var entered := Entered(g, Calls(g, n)[i]);
    PastCall(g, aim, n, seen, depth, i);
    PastEntries(g, aim, n, seen, depth, i, entered, |entered|);
    PastLast(g, aim, n, seen, depth, i);
    assert entered[..|entered|] == entered;
  }

  // The routes from some handlers, all together.
  ghost function SizeOfNodes(g: Graph, aim: Aim, nodes: seq<Node>, seen: set<Node>, depth: nat): nat {
    if nodes == [] then 0
    else SizeOfNodes(g, aim, Init(nodes), seen, depth) + |Routes(g, aim, Last(nodes), seen, depth)|
  }

  lemma SizeSnoc(g: Graph, aim: Aim, nodes: seq<Node>, seen: set<Node>, depth: nat, k: nat)
    requires k < |nodes|
    ensures SizeOfNodes(g, aim, nodes[..k + 1], seen, depth)
            == SizeOfNodes(g, aim, nodes[..k], seen, depth) + |Routes(g, aim, nodes[k], seen, depth)|
  {
    assert Init(nodes[..k + 1]) == nodes[..k];
  }

  lemma {:induction false} PastEntries(g: Graph, aim: Aim, n: Node, seen: set<Node>, depth: nat, i: nat,
                                       entered: seq<Node>, k: nat)
    requires n !in seen && depth <= DEPTH && i < |Calls(g, n)| && entered == Entered(g, Calls(g, n)[i])
        && k <= |entered|
    ensures |Past(g, aim, n, seen, depth, i, k + 1)|
            == |Past(g, aim, n, seen, depth, i, 1)| + SizeOfNodes(g, aim, entered[..k], seen + {n}, depth + 1)
    decreases k
  {
    if k > 0 {
      var j := k - 1;
      PastEntries(g, aim, n, seen, depth, i, entered, j);
      PastEntry(g, aim, n, seen, depth, i, j, entered[j]);
      SizeSnoc(g, aim, entered, seen + {n}, depth + 1, j);
    }
  }

  lemma {:induction false} NumberOfNodesIsExact(g: Graph, aim: Aim, nodes: seq<Node>, seen: set<Node>, depth: nat)
    requires depth <= DEPTH + 1
    ensures NumberOfNodes(g, aim, nodes, seen, depth) == SizeOfNodes(g, aim, nodes, seen, depth)
    decreases DEPTH + 1 - depth, 1, |nodes|
  {
    if nodes != [] {
      NumberOfNodesIsExact(g, aim, Init(nodes), seen, depth);
      NumberIsExact(g, aim, Last(nodes), seen, depth);
    }
  }

  ghost predicate AreTheRoutes(g: Graph, aim: Aim, n: Node, routes: set<Route>) {
    forall r :: r in routes <==> Arrives(g, aim, n, {}, 0, r)
  }

  ghost predicate IsNumberOfRoutes(g: Graph, aim: Aim, n: Node, number: nat) {
    exists routes :: AreTheRoutes(g, aim, n, routes) && |routes| == number
  }

  /** The count is the number of routes, and positive exactly when there is one. */
  lemma CountMeansRoutes(g: Graph, aim: Aim, n: Node)
    ensures IsNumberOfRoutes(g, aim, n, Number(g, aim, n, {}, 0))
    ensures Number(g, aim, n, {}, 0) > 0 <==> exists r :: Arrives(g, aim, n, {}, 0, r)
  {
    var routes := Routes(g, aim, n, {}, 0);
    NumberIsExact(g, aim, n, {}, 0);
    forall r ensures r in routes <==> Arrives(g, aim, n, {}, 0, r) {
      RoutesAreExact(g, aim, n, {}, 0, r);
    }
    assert AreTheRoutes(g, aim, n, routes);
    if routes != {} {
      var r :| r in routes;
    }
  }

  class Tally {
    const g: Graph
    const wide: set<PortKey>
    var counts: map<Name, nat>
    var viaArray: set<Name>

    function Messages(target: Name): nat
      reads this
    {
      if target in counts then counts[target] else 0
    }

    constructor (g: Graph, wide: set<PortKey>)
      ensures this.g == g && this.wide == wide && counts == map[] && viaArray == {}
    {
      this.g, this.wide, counts, viaArray := g, wide, map[], {};
    }

    method Count(n: Node, seen: set<Node>, depth: nat)
      modifies this
      ensures forall t :: Messages(t) == old(Messages(t)) + Number(g, Message(t), n, seen, depth)
      ensures forall t :: t in viaArray <==> t in old(viaArray) || Number(g, Fanned(t, wide), n, seen, depth) > 0
      decreases DEPTH + 1 - depth, 0
    {
      if n in seen || depth > DEPTH {
        return;
      }
      CountCalls(Calls(g, n), seen + {n}, depth + 1);
    }

    method CountCalls(calls: seq<Call>, seen: set<Node>, depth: nat)
      requires depth <= DEPTH + 1
      modifies this
      ensures forall t :: Messages(t) == old(Messages(t)) + NumberOfCalls(g, Message(t), calls, seen, depth)
      ensures forall t :: t in viaArray <==>
          t in old(viaArray) || NumberOfCalls(g, Fanned(t, wide), calls, seen, depth) > 0
      decreases DEPTH + 1 - depth, 2
    {
      for i := 0 to |calls|
        invariant forall t :: Messages(t) == old(Messages(t)) + NumberOfCalls(g, Message(t), calls[..i], seen, depth)
        invariant forall t :: t in viaArray <==>
            t in old(viaArray) || NumberOfCalls(g, Fanned(t, wide), calls[..i], seen, depth) > 0
      {
        var c := calls[i];
        assert Init(calls[..i + 1]) == calls[..i];
        if c.source in wide {
          viaArray := viaArray + {c.dest.instance};
        }
        if c.kind == Async {
          counts := counts[c.dest.instance := Messages(c.dest.instance) + 1];
        } else {
          CountEntries(Entries(g, c.dest, c.kind), seen, depth);
        }
      }
      assert calls[..|calls|] == calls;
    }

    method CountEntries(nodes: seq<Node>, seen: set<Node>, depth: nat)
      requires depth <= DEPTH + 1
      modifies this
      ensures forall t :: Messages(t) == old(Messages(t)) + NumberOfNodes(g, Message(t), nodes, seen, depth)
      ensures forall t :: t in viaArray <==>
          t in old(viaArray) || NumberOfNodes(g, Fanned(t, wide), nodes, seen, depth) > 0
      decreases DEPTH + 1 - depth, 1
    {
      for j := 0 to |nodes|
        invariant forall t :: Messages(t) == old(Messages(t)) + NumberOfNodes(g, Message(t), nodes[..j], seen, depth)
        invariant forall t :: t in viaArray <==>
            t in old(viaArray) || NumberOfNodes(g, Fanned(t, wide), nodes[..j], seen, depth) > 0
      {
        assert Init(nodes[..j + 1]) == nodes[..j];
        Count(nodes[j], seen, depth);
      }
      assert nodes[..|nodes|] == nodes;
    }
  }

  /** One dispatch of a handler: how many routes put a message on each queue, and which queues an array may reach. */
  method CountFrom(g: Graph, wide: set<PortKey>, n: Node) returns (tally: Tally)
    ensures tally.g == g && tally.wide == wide
    ensures forall t :: IsNumberOfRoutes(g, Message(t), n, tally.Messages(t))
    ensures forall t :: t in tally.viaArray <==> exists r :: Arrives(g, Fanned(t, wide), n, {}, 0, r)
  {
    tally := new Tally(g, wide);
    tally.Count(n, {}, 0);
    forall t ensures IsNumberOfRoutes(g, Message(t), n, tally.Messages(t)) {
      CountMeansRoutes(g, Message(t), n);
      assert tally.Messages(t) == Number(g, Message(t), n, {}, 0);
    }
    forall t ensures t in tally.viaArray <==> exists r :: Arrives(g, Fanned(t, wide), n, {}, 0, r) {
      CountMeansRoutes(g, Fanned(t, wide), n);
    }
  }
}
