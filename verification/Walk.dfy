/** The one traversal of topology_graph.py: a depth-first walk of call chains, driven by a policy. */
module Walk {
  import opened Basics
  import opened Graph

  function Max0(x: int): nat { if x < 0 then 0 else x }

  // The policy's callback is split in two. What it returns is `decide`, a function of the call and the
  // state (STOP is None). What it does besides is done by the caller, hop by hop, over `log`: the hops
  // handed to the callback, in the order they are handed over.

  // One call of the callback. The path is the chain of calls from the entry handler, this one last.
  datatype Hop<S> = Hop(entry: PortKey, entryFlow: Flow, call: Call, path: seq<Call>, state: S)

  datatype Policy<!S, !K> = Policy(decide: (Call, S) -> Option<S>, key: S -> K)

  // The walk's mutable data: markers in the order they were first expanded, budget, and shown hops.
  datatype Progress<S, K> = Progress(expanded: seq<(Node, K)>, budget: int, log: seq<Hop<S>>)

  // Number of calls out of a sequence of markers' handlers.
  ghost function Outgoing<K>(g: Graph, markers: seq<(Node, K)>): nat {
    if markers == [] then 0 else |Calls(g, markers[0].0)| + Outgoing(g, markers[1..])
  }

  lemma {:induction false} OutgoingAppend<K>(g: Graph, a: seq<(Node, K)>, b: seq<(Node, K)>)
    ensures Outgoing(g, a + b) == Outgoing(g, a) + Outgoing(g, b)
  {
    if a == [] {
      assert a + b == b;
    } else {
      OutgoingAppend(g, a[1..], b);
      assert (a + b)[1..] == a[1..] + b;
    }
  }

  /** One stretch of the walk only extends what it was given; each new marker costs one unit, while there is any. */
  ghost predicate Extends<S, K>(w: Progress<S, K>, w': Progress<S, K>) {
    && w.expanded <= w'.expanded
    && w.log <= w'.log
    && w'.budget == w.budget - (|w'.expanded| - |w.expanded|)
    && (w.budget >= 0 ==> w'.budget >= 0)
    && (w.budget <= 0 ==> w'.expanded == w.expanded)
    && (NoDup(w.expanded) ==> NoDup(w'.expanded))
  }

  ghost function Descend<S, K>(g: Graph, p: Policy<S, K>, entry: PortKey, entryFlow: Flow, n: Node, s: S,
                               path: seq<Call>, w: Progress<S, K>): (r: (Progress<S, K>, bool))
    ensures Extends(w, r.0) && (r.1 ==> r.0.budget <= 0)
    decreases Max0(w.budget), 0, 0
  {
    if w.budget <= 0 then (w, true)
    else if (n, p.key(s)) in w.expanded then (w, false)
    else
      Hops(g, p, entry, entryFlow, s, path, Calls(g, n),
           w.(expanded := w.expanded + [(n, p.key(s))], budget := w.budget - 1))
  }

  ghost function Hops<S, K>(g: Graph, p: Policy<S, K>, entry: PortKey, entryFlow: Flow, s: S, path: seq<Call>,
                            calls: seq<Call>, w: Progress<S, K>): (r: (Progress<S, K>, bool))
    ensures Extends(w, r.0) && (r.1 ==> r.0.budget <= 0)
    decreases Max0(w.budget), 2, |calls|
  {
    if calls == [] then (w, false)
    else
      var hop := Hop(entry, entryFlow, calls[0], path + [calls[0]], s);
      var shown := w.(log := w.log + [hop]);
      var below := match p.decide(calls[0], s)
        case None => (shown, false)
        case Some(s') => Enter(g, p, entry, entryFlow, s', hop.path,
                               Entries(g, calls[0].dest, calls[0].kind), shown);
      var rest := Hops(g, p, entry, entryFlow, s, path, calls[1..], below.0);
      (rest.0, below.1 || rest.1)
  }

  ghost function Enter<S, K>(g: Graph, p: Policy<S, K>, entry: PortKey, entryFlow: Flow, s: S, path: seq<Call>,
                             nodes: seq<Node>, w: Progress<S, K>): (r: (Progress<S, K>, bool))
    ensures Extends(w, r.0) && (r.1 ==> r.0.budget <= 0)
    decreases Max0(w.budget), 1, |nodes|
  {
    if nodes == [] then (w, false)
    else
      var first := Descend(g, p, entry, entryFlow, nodes[0], s, path, w);
      var rest := Enter(g, p, entry, entryFlow, s, path, nodes[1..], first.0);
      (rest.0, first.1 || rest.1)
  }

  // ---------------------------------------------------------------------------------------------
  // What one walk shows and expands
  // ---------------------------------------------------------------------------------------------

  /** The policy lets a chain run from (n0, s0) along `path` to handler n with state s. */
  ghost predicate Follows<S(!new), K>(g: Graph, p: Policy<S, K>, n0: Node, s0: S, path: seq<Call>, n: Node, s: S)
    decreases |path|
  {
    if path == [] then n == n0 && s == s0
    else exists m, t :: Follows(g, p, n0, s0, Init(path), m, t) && Advances(g, p, m, t, Last(path), n, s)
  }

  ghost predicate Advances<S, K>(g: Graph, p: Policy<S, K>, m: Node, t: S, c: Call, n: Node, s: S) {
    c in Calls(g, m) && p.decide(c, t) == Some(s) && n in Entries(g, c.dest, c.kind)
  }

  lemma FollowsSnoc<S(!new), K>(g: Graph, p: Policy<S, K>, n0: Node, s0: S, path: seq<Call>, m: Node, t: S,
                                c: Call, n: Node, s: S)
    requires Follows(g, p, n0, s0, path, m, t) && Advances(g, p, m, t, c, n, s)
    ensures Follows(g, p, n0, s0, path + [c], n, s)
  {
    assert Init(path + [c]) == path;
  }

  /** A hop is genuine: its path is a chain the policy allows, and it carries the state of that chain. */
  ghost predicate Genuine<S(!new), K>(g: Graph, p: Policy<S, K>, n0: Node, s0: S, entry: PortKey, hop: Hop<S>) {
    && hop.entry == entry && hop.entryFlow == n0.flow
    && hop.path != [] && Last(hop.path) == hop.call
    && exists n :: Follows(g, p, n0, s0, Init(hop.path), n, hop.state) && hop.call in Calls(g, n)
  }

  ghost predicate ReachedMarker<S(!new), K>(g: Graph, p: Policy<S, K>, n0: Node, s0: S, m: (Node, K)) {
    exists path, s :: Follows(g, p, n0, s0, path, m.0, s) && p.key(s) == m.1
  }

  ghost predicate AllGenuine<S(!new), K>(g: Graph, p: Policy<S, K>, n0: Node, s0: S, entry: PortKey,
                                         w: Progress<S, K>) {
    && (forall i :: 0 <= i < |w.log| ==> Genuine(g, p, n0, s0, entry, w.log[i]))
    && (forall i :: 0 <= i < |w.expanded| ==> ReachedMarker(g, p, n0, s0, w.expanded[i]))
  }

  lemma {:induction false} DescendGenuine<S(!new), K>(g: Graph, p: Policy<S, K>, entry: PortKey, n0: Node, s0: S,
                                                      n: Node, s: S, path: seq<Call>, w: Progress<S, K>)
    requires Follows(g, p, n0, s0, path, n, s) && AllGenuine(g, p, n0, s0, entry, w)
    ensures AllGenuine(g, p, n0, s0, entry, Descend(g, p, entry, n0.flow, n, s, path, w).0)
    decreases Max0(w.budget), 0, 0
  {
    var marker := (n, p.key(s));
    if w.budget > 0 && marker !in w.expanded {
      assert ReachedMarker(g, p, n0, s0, marker);
      HopsGenuine(g, p, entry, n0, s0, n, s, path, Calls(g, n),
                  w.(expanded := w.expanded + [marker], budget := w.budget - 1));
    }
  }

  lemma {:induction false} HopsGenuine<S(!new), K>(g: Graph, p: Policy<S, K>, entry: PortKey, n0: Node, s0: S, n: Node,
                                                   s: S, path: seq<Call>, calls: seq<Call>, w: Progress<S, K>)
    requires Follows(g, p, n0, s0, path, n, s) && AllGenuine(g, p, n0, s0, entry, w)
    requires forall c :: c in calls ==> c in Calls(g, n)
    ensures AllGenuine(g, p, n0, s0, entry, Hops(g, p, entry, n0.flow, s, path, calls, w).0)
    decreases Max0(w.budget), 2, |calls|
  {
    if calls != [] {
      var c := calls[0];
      var hop := Hop(entry, n0.flow, c, path + [c], s);
      assert Init(hop.path) == path;
      var shown := w.(log := w.log + [hop]);
      match p.decide(c, s) {
        case None =>
          HopsGenuine(g, p, entry, n0, s0, n, s, path, calls[1..], shown);
        case Some(s') =>
          var nodes := Entries(g, c.dest, c.kind);
          forall k | k in nodes ensures Follows(g, p, n0, s0, hop.path, k, s') {
            FollowsSnoc(g, p, n0, s0, path, n, s, c, k, s');
          }
          EnterGenuine(g, p, entry, n0, s0, s', hop.path, nodes, shown);
          HopsGenuine(g, p, entry, n0, s0, n, s, path, calls[1..],
                      Enter(g, p, entry, n0.flow, s', hop.path, nodes, shown).0);
      }
    }
  }

  lemma {:induction false} EnterGenuine<S(!new), K>(g: Graph, p: Policy<S, K>, entry: PortKey, n0: Node, s0: S, s: S,
                                                    path: seq<Call>, nodes: seq<Node>, w: Progress<S, K>)
    requires forall k :: k in nodes ==> Follows(g, p, n0, s0, path, k, s)
    requires AllGenuine(g, p, n0, s0, entry, w)
    ensures AllGenuine(g, p, n0, s0, entry, Enter(g, p, entry, n0.flow, s, path, nodes, w).0)
    decreases Max0(w.budget), 1, |nodes|
  {
    if nodes != [] {
      DescendGenuine(g, p, entry, n0, s0, nodes[0], s, path, w);
      EnterGenuine(g, p, entry, n0, s0, s, path, nodes[1..],
                   Descend(g, p, entry, n0.flow, nodes[0], s, path, w).0);
    }
  }

  // ---------------------------------------------------------------------------------------------
  // Nothing is missed
  // ---------------------------------------------------------------------------------------------

  /** The policy looks at a state only through its key: `onKey` is the decision it takes on keys. */
  ghost predicate Respects<S(!new), K>(p: Policy<S, K>, onKey: (Call, K) -> Option<K>) {
    forall c, s :: onKey(c, p.key(s)) == match p.decide(c, s) case None => None case Some(t) => Some(p.key(t))
  }

  ghost predicate ShownWith<S, K>(p: Policy<S, K>, log: seq<Hop<S>>, c: Call, k: K) {
    exists i :: 0 <= i < |log| && log[i].call == c && p.key(log[i].state) == k
  }

  /** A call out of a marker has been shown, and every marker the policy leads to has been expanded. */
  ghost predicate CallDone<S, K>(g: Graph, p: Policy<S, K>, onKey: (Call, K) -> Option<K>, w: Progress<S, K>,
                                 c: Call, k: K) {
    && ShownWith(p, w.log, c, k)
    && (onKey(c, k).Some? ==> forall n :: n in Entries(g, c.dest, c.kind) ==> (n, onKey(c, k).value) in w.expanded)
  }

  ghost predicate MarkerDone<S, K>(g: Graph, p: Policy<S, K>, onKey: (Call, K) -> Option<K>, w: Progress<S, K>,
                                   m: (Node, K)) {
    forall c :: c in Calls(g, m.0) ==> CallDone(g, p, onKey, w, c, m.1)
  }

  ghost predicate DoneFrom<S, K>(g: Graph, p: Policy<S, K>, onKey: (Call, K) -> Option<K>, w: Progress<S, K>,
                                 start: nat) {
    forall i :: start <= i < |w.expanded| ==> MarkerDone(g, p, onKey, w, w.expanded[i])
  }

  lemma CallStaysDone<S, K>(g: Graph, p: Policy<S, K>, onKey: (Call, K) -> Option<K>, w: Progress<S, K>,
                            w': Progress<S, K>, c: Call, k: K)
    requires Extends(w, w') && CallDone(g, p, onKey, w, c, k)
    ensures CallDone(g, p, onKey, w', c, k)
  {
    var i :| 0 <= i < |w.log| && w.log[i].call == c && p.key(w.log[i].state) == k;
    assert w'.log[i] == w.log[i];
  }

  lemma StaysDone<S, K>(g: Graph, p: Policy<S, K>, onKey: (Call, K) -> Option<K>, w: Progress<S, K>,
                        w': Progress<S, K>, start: nat)
    requires Extends(w, w') && DoneFrom(g, p, onKey, w, start)
    ensures forall i :: start <= i < |w.expanded| ==> MarkerDone(g, p, onKey, w', w'.expanded[i])
  {
    forall i, c | start <= i < |w.expanded| && c in Calls(g, w'.expanded[i].0)
      ensures CallDone(g, p, onKey, w', c, w'.expanded[i].1)
    {
      assert w'.expanded[i] == w.expanded[i];
      CallStaysDone(g, p, onKey, w, w', c, w.expanded[i].1);
    }
  }

  lemma {:induction false} DescendCloses<S(!new), K>(g: Graph, p: Policy<S, K>, onKey: (Call, K) -> Option<K>,
                                                     entry: PortKey, flow: Flow, n: Node, s: S, path: seq<Call>,
                                                     w: Progress<S, K>)
    requires Respects(p, onKey) && !Descend(g, p, entry, flow, n, s, path, w).1
    ensures var w' := Descend(g, p, entry, flow, n, s, path, w).0;
      (n, p.key(s)) in w'.expanded && DoneFrom(g, p, onKey, w', |w.expanded|)
    decreases Max0(w.budget), 0, 0
  {
    var marker, r := (n, p.key(s)), Descend(g, p, entry, flow, n, s, path, w);
    if marker in w.expanded {
      assert r.0 == w;
    } else {
      var w0 := w.(expanded := w.expanded + [marker], budget := w.budget - 1);
      assert r == Hops(g, p, entry, flow, s, path, Calls(g, n), w0);
      HopsClose(g, p, onKey, entry, flow, s, path, Calls(g, n), w0);
      MarkerCloses(g, p, onKey, w, n, s, r.0);
    }
  }

  /** The marker expanded first is done, and so are those expanded after it. */
  lemma MarkerCloses<S(!new), K>(g: Graph, p: Policy<S, K>, onKey: (Call, K) -> Option<K>, w: Progress<S, K>, n: Node,
                                 s: S, w': Progress<S, K>)
    requires w.expanded + [(n, p.key(s))] <= w'.expanded && DoneFrom(g, p, onKey, w', |w.expanded| + 1)
    requires forall c :: c in Calls(g, n) ==> CallDone(g, p, onKey, w', c, p.key(s))
    ensures (n, p.key(s)) in w'.expanded && DoneFrom(g, p, onKey, w', |w.expanded|)
  {
    var marker := (n, p.key(s));
    assert (w.expanded + [marker])[|w.expanded|] == w'.expanded[|w.expanded|] == marker;
    assert MarkerDone(g, p, onKey, w', marker);
  }

  lemma {:induction false} HopsClose<S(!new), K>(g: Graph, p: Policy<S, K>, onKey: (Call, K) -> Option<K>,
                                                 entry: PortKey, flow: Flow, s: S, path: seq<Call>, calls: seq<Call>,
                                                 w: Progress<S, K>)
    requires Respects(p, onKey) && !Hops(g, p, entry, flow, s, path, calls, w).1
    ensures var w' := Hops(g, p, entry, flow, s, path, calls, w).0;
      DoneFrom(g, p, onKey, w', |w.expanded|) && forall c :: c in calls ==> CallDone(g, p, onKey, w', c, p.key(s))
    decreases Max0(w.budget), 2, |calls|
  {
    if calls != [] {
      var c := calls[0];
      var hop := Hop(entry, flow, c, path + [c], s);
      var shown := w.(log := w.log + [hop]);
      assert shown.log[|w.log|] == hop;
      assert ShownWith(p, shown.log, c, p.key(s));
      var nodes := Entries(g, c.dest, c.kind);
      var below := match p.decide(c, s)
        case None => shown
        case Some(s') => Enter(g, p, entry, flow, s', hop.path, nodes, shown).0;
      if p.decide(c, s).Some? {
        EnterCloses(g, p, onKey, entry, flow, p.decide(c, s).value, hop.path, nodes, shown);
      }
      assert below.log[|w.log|] == hop;
      assert ShownWith(p, below.log, c, p.key(s));
      assert CallDone(g, p, onKey, below, c, p.key(s));
      assert DoneFrom(g, p, onKey, below, |w.expanded|);
      HopsClose(g, p, onKey, entry, flow, s, path, calls[1..], below);
      var w' := Hops(g, p, entry, flow, s, path, calls[1..], below).0;
      CallStaysDone(g, p, onKey, below, w', c, p.key(s));
      StaysDone(g, p, onKey, below, w', |w.expanded|);
    }
  }

  lemma {:induction false} EnterCloses<S(!new), K>(g: Graph, p: Policy<S, K>, onKey: (Call, K) -> Option<K>,
                                                   entry: PortKey, flow: Flow, s: S, path: seq<Call>,
                                                   nodes: seq<Node>, w: Progress<S, K>)
    requires Respects(p, onKey) && !Enter(g, p, entry, flow, s, path, nodes, w).1
    ensures var w' := Enter(g, p, entry, flow, s, path, nodes, w).0;
      DoneFrom(g, p, onKey, w', |w.expanded|) && forall n :: n in nodes ==> (n, p.key(s)) in w'.expanded
    decreases Max0(w.budget), 1, |nodes|
  {
    if nodes != [] {
      DescendCloses(g, p, onKey, entry, flow, nodes[0], s, path, w);
      var first := Descend(g, p, entry, flow, nodes[0], s, path, w).0;
      EnterCloses(g, p, onKey, entry, flow, s, path, nodes[1..], first);
      StaysDone(g, p, onKey, first, Enter(g, p, entry, flow, s, path, nodes[1..], first).0, |w.expanded|);
    }
  }

  // ---------------------------------------------------------------------------------------------
  // Each marker is expanded once, and a large enough budget is never exhausted
  // ---------------------------------------------------------------------------------------------

  ghost function Balance<S, K>(g: Graph, w: Progress<S, K>): int {
    |w.log| - Outgoing(g, w.expanded)
  }

  lemma {:induction false} DescendBalances<S, K>(g: Graph, p: Policy<S, K>, entry: PortKey, flow: Flow, n: Node,
                                                 s: S, path: seq<Call>, w: Progress<S, K>)
    ensures Balance(g, Descend(g, p, entry, flow, n, s, path, w).0) == Balance(g, w)
    decreases Max0(w.budget), 0, 0
  {
    var marker := (n, p.key(s));
    if w.budget > 0 && marker !in w.expanded {
      var w0 := w.(expanded := w.expanded + [marker], budget := w.budget - 1);
      OutgoingAppend(g, w.expanded, [marker]);
      HopsBalance(g, p, entry, flow, s, path, Calls(g, n), w0);
    }
  }

  lemma {:induction false} HopsBalance<S, K>(g: Graph, p: Policy<S, K>, entry: PortKey, flow: Flow, s: S,
                                             path: seq<Call>, calls: seq<Call>, w: Progress<S, K>)
    ensures Balance(g, Hops(g, p, entry, flow, s, path, calls, w).0) == Balance(g, w) + |calls|
    decreases Max0(w.budget), 2, |calls|
  {
    if calls != [] {
      var c := calls[0];
      var hop := Hop(entry, flow, c, path + [c], s);
      var shown := w.(log := w.log + [hop]);
      match p.decide(c, s) {
        case None =>
          HopsBalance(g, p, entry, flow, s, path, calls[1..], shown);
        case Some(s') =>
          EnterBalances(g, p, entry, flow, s', hop.path, Entries(g, c.dest, c.kind), shown);
          HopsBalance(g, p, entry, flow, s, path, calls[1..],
                      Enter(g, p, entry, flow, s', hop.path, Entries(g, c.dest, c.kind), shown).0);
      }
    }
  }

  lemma {:induction false} EnterBalances<S, K>(g: Graph, p: Policy<S, K>, entry: PortKey, flow: Flow, s: S,
                                               path: seq<Call>, nodes: seq<Node>, w: Progress<S, K>)
    ensures Balance(g, Enter(g, p, entry, flow, s, path, nodes, w).0) == Balance(g, w)
    decreases Max0(w.budget), 1, |nodes|
  {
    if nodes != [] {
      DescendBalances(g, p, entry, flow, nodes[0], s, path, w);
      EnterBalances(g, p, entry, flow, s, path, nodes[1..], Descend(g, p, entry, flow, nodes[0], s, path, w).0);
    }
  }

  /** A finite set of markers the policy never leaves. */
  ghost predicate Enclosed<K>(g: Graph, onKey: (Call, K) -> Option<K>, space: set<(Node, K)>) {
    forall m, c, n :: m in space && c in Calls(g, m.0) && onKey(c, m.1).Some? && n in Entries(g, c.dest, c.kind)
      ==> (n, onKey(c, m.1).value) in space
  }

  ghost predicate Affordable<S, K>(space: set<(Node, K)>, w: Progress<S, K>) {
    && NoDup(w.expanded)
    && (forall m :: m in w.expanded ==> m in space)
    && w.budget > |space| - |w.expanded|
  }

  lemma {:induction false} DescendAffords<S(!new), K>(g: Graph, p: Policy<S, K>, onKey: (Call, K) -> Option<K>,
                                                      space: set<(Node, K)>, entry: PortKey, flow: Flow, n: Node,
                                                      s: S, path: seq<Call>, w: Progress<S, K>)
    requires Respects(p, onKey) && Enclosed(g, onKey, space)
    requires (n, p.key(s)) in space && Affordable(space, w)
    ensures var r := Descend(g, p, entry, flow, n, s, path, w); !r.1 && Affordable(space, r.0)
    decreases Max0(w.budget), 0, 0
  {
    NoDupBounded(w.expanded, space);
    var marker := (n, p.key(s));
    if marker !in w.expanded {
      HopsAfford(g, p, onKey, space, entry, flow, n, s, path, Calls(g, n),
                 w.(expanded := w.expanded + [marker], budget := w.budget - 1));
    }
  }

  lemma {:induction false} HopsAfford<S(!new), K>(g: Graph, p: Policy<S, K>, onKey: (Call, K) -> Option<K>,
                                                  space: set<(Node, K)>, entry: PortKey, flow: Flow, n: Node, s: S,
                                                  path: seq<Call>, calls: seq<Call>, w: Progress<S, K>)
    requires Respects(p, onKey) && Enclosed(g, onKey, space)
    requires (n, p.key(s)) in space && Affordable(space, w) && forall c :: c in calls ==> c in Calls(g, n)
    ensures var r := Hops(g, p, entry, flow, s, path, calls, w); !r.1 && Affordable(space, r.0)
    decreases Max0(w.budget), 2, |calls|
  {
    if calls != [] {
      var c := calls[0];
      var hop := Hop(entry, flow, c, path + [c], s);
      var shown := w.(log := w.log + [hop]);
      match p.decide(c, s) {
        case None =>
          HopsAfford(g, p, onKey, space, entry, flow, n, s, path, calls[1..], shown);
        case Some(s') =>
          assert onKey(c, p.key(s)) == Some(p.key(s'));
          var nodes := Entries(g, c.dest, c.kind);
          EnterAffords(g, p, onKey, space, entry, flow, s', hop.path, nodes, shown);
          HopsAfford(g, p, onKey, space, entry, flow, n, s, path, calls[1..],
                     Enter(g, p, entry, flow, s', hop.path, nodes, shown).0);
      }
    }
  }

  lemma {:induction false} EnterAffords<S(!new), K>(g: Graph, p: Policy<S, K>, onKey: (Call, K) -> Option<K>,
                                                    space: set<(Node, K)>, entry: PortKey, flow: Flow, s: S,
                                                    path: seq<Call>, nodes: seq<Node>, w: Progress<S, K>)
    requires Respects(p, onKey) && Enclosed(g, onKey, space)
    requires (forall n :: n in nodes ==> (n, p.key(s)) in space) && Affordable(space, w)
    ensures var r := Enter(g, p, entry, flow, s, path, nodes, w); !r.1 && Affordable(space, r.0)
    decreases Max0(w.budget), 1, |nodes|
  {
    if nodes != [] {
      DescendAffords(g, p, onKey, space, entry, flow, nodes[0], s, path, w);
      EnterAffords(g, p, onKey, space, entry, flow, s, path, nodes[1..],
                   Descend(g, p, entry, flow, nodes[0], s, path, w).0);
    }
  }

  // ---------------------------------------------------------------------------------------------
  // walk_chains: one descent per handler behind the entry port, each with its own visited set
  // ---------------------------------------------------------------------------------------------

  datatype Walked<S> = Walked(log: seq<Hop<S>>, budget: int, truncated: bool)

  ghost function WalkFrom<S, K>(g: Graph, p: Policy<S, K>, entry: PortKey, s0: S, nodes: seq<Node>, budget: int)
    : (r: Walked<S>)
    ensures r.budget <= budget && (budget >= 0 ==> r.budget >= 0) && (r.truncated ==> r.budget <= 0)
  {
    if nodes == [] then Walked([], budget, false)
    else
      var first := Descend(g, p, entry, nodes[0].flow, nodes[0], s0, [], Progress([], budget, []));
      var rest := WalkFrom(g, p, entry, s0, nodes[1..], first.0.budget);
      Walked(first.0.log + rest.log, rest.budget, first.1 || rest.truncated)
  }

  ghost function WalkChains<S, K>(g: Graph, p: Policy<S, K>, entry: PortKey, kind: Kind, s0: S, budget: int)
    : Walked<S>
  {
    WalkFrom(g, p, entry, s0, Entries(g, entry, kind), budget)
  }

  ghost predicate ShowsCall<S, K>(p: Policy<S, K>, log: seq<Hop<S>>, flow: Flow, c: Call, k: K) {
    exists hop :: hop in log && hop.entryFlow == flow && hop.call == c && p.key(hop.state) == k
  }

  /** Every state of every chain from n0 has been shown every call it can make. */
  ghost predicate ShowsAll<S(!new), K>(g: Graph, p: Policy<S, K>, n0: Node, s0: S, log: seq<Hop<S>>) {
    forall path, n, s, c :: Follows(g, p, n0, s0, path, n, s) && c in Calls(g, n)
      ==> ShowsCall(p, log, n0.flow, c, p.key(s))
  }

  ghost predicate ShowsOnly<S(!new), K>(g: Graph, p: Policy<S, K>, entry: PortKey, s0: S, nodes: seq<Node>,
                                        log: seq<Hop<S>>) {
    forall hop :: hop in log ==> exists n0 :: n0 in nodes && Genuine(g, p, n0, s0, entry, hop)
  }

  lemma {:induction false} FollowedIsExpanded<S(!new), K>(g: Graph, p: Policy<S, K>, onKey: (Call, K) -> Option<K>,
                                                          n0: Node, s0: S, path: seq<Call>, n: Node, s: S,
                                                          w: Progress<S, K>)
    requires Respects(p, onKey) && DoneFrom(g, p, onKey, w, 0) && (n0, p.key(s0)) in w.expanded
    requires Follows(g, p, n0, s0, path, n, s)
    ensures (n, p.key(s)) in w.expanded
    decreases |path|
  {
    if path != [] {
      var c := Last(path);
      var m, t :| Follows(g, p, n0, s0, Init(path), m, t) && Advances(g, p, m, t, c, n, s);
      FollowedIsExpanded(g, p, onKey, n0, s0, Init(path), m, t, w);
      assert MarkerDone(g, p, onKey, w, (m, p.key(t)));
      assert CallDone(g, p, onKey, w, c, p.key(t));
      assert onKey(c, p.key(t)) == Some(p.key(s));
    }
  }

  lemma DescentShowsAll<S(!new), K>(g: Graph, p: Policy<S, K>, onKey: (Call, K) -> Option<K>,
                                    entry: PortKey, n0: Node, s0: S, budget: int)
    requires Respects(p, onKey)
    requires !Descend(g, p, entry, n0.flow, n0, s0, [], Progress([], budget, [])).1
    ensures ShowsAll(g, p, n0, s0, Descend(g, p, entry, n0.flow, n0, s0, [], Progress([], budget, [])).0.log)
  {
    var w0: Progress<S, K> := Progress([], budget, []);
    var w := Descend(g, p, entry, n0.flow, n0, s0, [], w0).0;
    DescendGenuine(g, p, entry, n0, s0, n0, s0, [], w0);
    DescendCloses(g, p, onKey, entry, n0.flow, n0, s0, [], w0);
    forall path, n, s, c | Follows(g, p, n0, s0, path, n, s) && c in Calls(g, n)
      ensures ShowsCall(p, w.log, n0.flow, c, p.key(s))
    {
      FollowedIsExpanded(g, p, onKey, n0, s0, path, n, s, w);
      assert MarkerDone(g, p, onKey, w, (n, p.key(s)));
      assert CallDone(g, p, onKey, w, c, p.key(s));
      var i :| 0 <= i < |w.log| && w.log[i].call == c && p.key(w.log[i].state) == p.key(s);
      assert Genuine(g, p, n0, s0, entry, w.log[i]);
      assert w.log[i] in w.log;
    }
  }

  lemma ShowsAllInMore<S(!new), K>(g: Graph, p: Policy<S, K>, n0: Node, s0: S, log: seq<Hop<S>>, more: seq<Hop<S>>)
    requires ShowsAll(g, p, n0, s0, log) && forall hop :: hop in log ==> hop in more
    ensures ShowsAll(g, p, n0, s0, more)
  {
    forall path, n, s, c | Follows(g, p, n0, s0, path, n, s) && c in Calls(g, n)
      ensures ShowsCall(p, more, n0.flow, c, p.key(s))
    {
      assert ShowsCall(p, log, n0.flow, c, p.key(s));
    }
  }

  /** The walk theorem, one way: whatever the budget, a walk shows only hops of chains its policy allows. */
  lemma {:induction false} WalkIsSound<S(!new), K>(g: Graph, p: Policy<S, K>, entry: PortKey, s0: S,
                                                   nodes: seq<Node>, budget: int)
    ensures ShowsOnly(g, p, entry, s0, nodes, WalkFrom(g, p, entry, s0, nodes, budget).log)
  {
    if nodes != [] {
      var n0 := nodes[0];
      var w0: Progress<S, K> := Progress([], budget, []);
      var first := Descend(g, p, entry, n0.flow, n0, s0, [], w0).0;
      DescendGenuine(g, p, entry, n0, s0, n0, s0, [], w0);
      WalkIsSound(g, p, entry, s0, nodes[1..], first.budget);
      forall hop | hop in WalkFrom(g, p, entry, s0, nodes, budget).log
        ensures exists k :: k in nodes && Genuine(g, p, k, s0, entry, hop)
      {
        if hop in first.log {
          assert n0 in nodes && Genuine(g, p, n0, s0, entry, hop);
        } else {
          var k :| k in nodes[1..] && Genuine(g, p, k, s0, entry, hop);
          assert k in nodes;
        }
      }
    }
  }

  /** The walk theorem, the other way: a walk that is not truncated misses no call of any such chain. */
  lemma {:induction false} WalkIsComplete<S(!new), K>(g: Graph, p: Policy<S, K>, onKey: (Call, K) -> Option<K>,
                                                      entry: PortKey, s0: S, nodes: seq<Node>, budget: int)
    requires Respects(p, onKey) && !WalkFrom(g, p, entry, s0, nodes, budget).truncated
    ensures forall n0 :: n0 in nodes ==> ShowsAll(g, p, n0, s0, WalkFrom(g, p, entry, s0, nodes, budget).log)
  {
    if nodes != [] {
      var first := Descend(g, p, entry, nodes[0].flow, nodes[0], s0, [], Progress([], budget, [])).0;
      var log := WalkFrom(g, p, entry, s0, nodes, budget).log;
      var rest := WalkFrom(g, p, entry, s0, nodes[1..], first.budget).log;
      DescentShowsAll(g, p, onKey, entry, nodes[0], s0, budget);
      WalkIsComplete(g, p, onKey, entry, s0, nodes[1..], first.budget);
      forall n0 | n0 in nodes ensures ShowsAll(g, p, n0, s0, log) {
        if n0 == nodes[0] {
          ShowsAllInMore(g, p, n0, s0, first.log, log);
        } else {
          assert n0 in nodes[1..];
          ShowsAllInMore(g, p, n0, s0, rest, log);
        }
      }
    }
  }

  /**
   * One descent expands each marker it reaches once: the budget falls by the number of markers and every call out of
   * each of them is shown once.
   */
  lemma DescentIsFrugal<S(!new), K>(g: Graph, p: Policy<S, K>, entry: PortKey, n0: Node, s0: S, budget: int)
    ensures var r := Descend(g, p, entry, n0.flow, n0, s0, [], Progress([], budget, []));
      && NoDup(r.0.expanded)
      && (forall m :: m in r.0.expanded ==> ReachedMarker(g, p, n0, s0, m))
      && budget - r.0.budget == |r.0.expanded|
      && |r.0.log| == Outgoing(g, r.0.expanded)
  {
    var w0: Progress<S, K> := Progress([], budget, []);
    DescendBalances(g, p, entry, n0.flow, n0, s0, [], w0);
    DescendGenuine(g, p, entry, n0, s0, n0, s0, [], w0);
  }

  /** A budget above the number of markers, once per entry handler, is never exhausted. */
  lemma {:induction false} WalkIsAffordable<S(!new), K>(g: Graph, p: Policy<S, K>, onKey: (Call, K) -> Option<K>,
                                                        space: set<(Node, K)>, entry: PortKey, s0: S,
                                                        nodes: seq<Node>, budget: int)
    requires Respects(p, onKey) && Enclosed(g, onKey, space)
    requires (forall n :: n in nodes ==> (n, p.key(s0)) in space) && budget > |nodes| * |space|
    ensures var r := WalkFrom(g, p, entry, s0, nodes, budget);
      !r.truncated && r.budget >= budget - |nodes| * |space|
  {
    if nodes != [] {
      assert |nodes| * |space| == |space| + |nodes[1..]| * |space|;
      var first := Descend(g, p, entry, nodes[0].flow, nodes[0], s0, [], Progress([], budget, []));
      DescentFits(g, p, onKey, space, entry, nodes[0], s0, budget);
      WalkIsAffordable(g, p, onKey, space, entry, s0, nodes[1..], first.0.budget);
    }
  }

  /** With more budget than there are markers a descent is never truncated, and leaves all but that many units. */
  lemma DescentFits<S(!new), K>(g: Graph, p: Policy<S, K>, onKey: (Call, K) -> Option<K>, space: set<(Node, K)>,
                                entry: PortKey, n0: Node, s0: S, budget: int)
    requires Respects(p, onKey) && Enclosed(g, onKey, space) && (n0, p.key(s0)) in space && budget > |space|
    ensures var r := Descend(g, p, entry, n0.flow, n0, s0, [], Progress([], budget, []));
      !r.1 && r.0.budget >= budget - |space|
  {
    var w0: Progress<S, K> := Progress([], budget, []);
    DescendAffords(g, p, onKey, space, entry, n0.flow, n0, s0, [], w0);
    NoDupBounded(Descend(g, p, entry, n0.flow, n0, s0, [], w0).0.expanded, space);
  }
}
