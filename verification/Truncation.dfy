/** What the budget of the walks buys: a walk is truncated only when it is spent, on the first markers there are. */
module Truncation {
  import opened Basics
  import opened Graph
  import opened Walk
  import opened LockOrder

  // ---------------------------------------------------------------------------------------------
  // One stretch of a walk
  // ---------------------------------------------------------------------------------------------

  /** The same progress, with at least as much budget left. */
  ghost predicate Richer<S, K>(w: Progress<S, K>, v: Progress<S, K>) {
    v == w.(budget := v.budget) && w.budget <= v.budget
  }

  /**
   * With more budget the same markers are expanded first; and when the smaller budget was not spent, everything is
   * the same.
   */
  ghost predicate BuysMore<S, K>(w: Progress<S, K>, v: Progress<S, K>, a: (Progress<S, K>, bool),
                                 b: (Progress<S, K>, bool)) {
    && a.0.expanded <= b.0.expanded
    && (!a.1 ==> !b.1 && Richer(a.0, b.0) && b.0.budget - a.0.budget == v.budget - w.budget)
  }

  /** The progress with which a marker's calls are tried. */
  ghost function Expanded<S, K>(w: Progress<S, K>, marker: (Node, K)): Progress<S, K> {
    w.(expanded := w.expanded + [marker], budget := w.budget - 1)
  }

  lemma DescendExpands<S, K>(g: Graph, p: Policy<S, K>, entry: PortKey, flow: Flow, n: Node, s: S, path: seq<Call>,
                             w: Progress<S, K>)
    requires w.budget > 0 && (n, p.key(s)) !in w.expanded
    ensures Descend(g, p, entry, flow, n, s, path, w)
         == Hops(g, p, entry, flow, s, path, Calls(g, n), Expanded(w, (n, p.key(s))))
  {
  }

  lemma DescendStops<S, K>(g: Graph, p: Policy<S, K>, entry: PortKey, flow: Flow, n: Node, s: S, path: seq<Call>,
                           w: Progress<S, K>, v: Progress<S, K>)
    requires Richer(w, v) && (w.budget <= 0 || (n, p.key(s)) in w.expanded)
    ensures BuysMore(w, v, Descend(g, p, entry, flow, n, s, path, w), Descend(g, p, entry, flow, n, s, path, v))
  {
  }

  lemma {:induction false} DescendRicher<S, K>(g: Graph, p: Policy<S, K>, entry: PortKey, flow: Flow, n: Node, s: S,
                                               path: seq<Call>, w: Progress<S, K>, v: Progress<S, K>)
    requires Richer(w, v)
    ensures BuysMore(w, v, Descend(g, p, entry, flow, n, s, path, w), Descend(g, p, entry, flow, n, s, path, v))
    decreases Max0(w.budget), 0, 0
  {
    var marker := (n, p.key(s));
    if w.budget <= 0 || marker in w.expanded {
      DescendStops(g, p, entry, flow, n, s, path, w, v);
    } else {
      DescendExpands(g, p, entry, flow, n, s, path, w);
      DescendExpands(g, p, entry, flow, n, s, path, v);
      HopsRicher(g, p, entry, flow, s, path, Calls(g, n), Expanded(w, marker), Expanded(v, marker));
    }
  }

  lemma {:induction false} HopsRicher<S, K>(g: Graph, p: Policy<S, K>, entry: PortKey, flow: Flow, s: S,
                                            path: seq<Call>, calls: seq<Call>, w: Progress<S, K>, v: Progress<S, K>)
    requires Richer(w, v)
    ensures BuysMore(w, v, Hops(g, p, entry, flow, s, path, calls, w), Hops(g, p, entry, flow, s, path, calls, v))
    decreases Max0(w.budget), 2, |calls|
  {
    if calls != [] {
      var c, hop := calls[0], Hop(entry, flow, calls[0], path + [calls[0]], s);
      var w1, v1 := w.(log := w.log + [hop]), v.(log := v.log + [hop]);
      match p.decide(c, s) {
        case None =>
          HopsRicher(g, p, entry, flow, s, path, calls[1..], w1, v1);
        case Some(s') =>
          var nodes := Entries(g, c.dest, c.kind);
          EnterRicher(g, p, entry, flow, s', hop.path, nodes, w1, v1);
          var a := Enter(g, p, entry, flow, s', hop.path, nodes, w1);
          var b := Enter(g, p, entry, flow, s', hop.path, nodes, v1);
          if !a.1 {
            HopsRicher(g, p, entry, flow, s, path, calls[1..], a.0, b.0);
          }
      }
    }
  }

  lemma {:induction false} EnterRicher<S, K>(g: Graph, p: Policy<S, K>, entry: PortKey, flow: Flow, s: S,
                                             path: seq<Call>, nodes: seq<Node>, w: Progress<S, K>, v: Progress<S, K>)
    requires Richer(w, v)
    ensures BuysMore(w, v, Enter(g, p, entry, flow, s, path, nodes, w), Enter(g, p, entry, flow, s, path, nodes, v))
    decreases Max0(w.budget), 1, |nodes|
  {
    if nodes != [] {
      DescendRicher(g, p, entry, flow, nodes[0], s, path, w, v);
      var a, b := Descend(g, p, entry, flow, nodes[0], s, path, w), Descend(g, p, entry, flow, nodes[0], s, path, v);
      if !a.1 {
        EnterRicher(g, p, entry, flow, s, path, nodes[1..], a.0, b.0);
      }
    }
  }

  // ---------------------------------------------------------------------------------------------
  // Once the budget is gone
  // ---------------------------------------------------------------------------------------------

  lemma {:induction false} HopsInTwoParts<S, K>(g: Graph, p: Policy<S, K>, entry: PortKey, flow: Flow, s: S,
                                                path: seq<Call>, calls: seq<Call>, i: nat, w: Progress<S, K>)
    requires i <= |calls|
    ensures var a := Hops(g, p, entry, flow, s, path, calls[..i], w);
      var b := Hops(g, p, entry, flow, s, path, calls[i..], a.0);
      Hops(g, p, entry, flow, s, path, calls, w) == (b.0, a.1 || b.1)
    decreases i
  {
    if i == 0 {
      assert calls[i..] == calls;
    } else {
      var c, hop := calls[0], Hop(entry, flow, calls[0], path + [calls[0]], s);
      var shown := w.(log := w.log + [hop]);
      var below := match p.decide(c, s)
        case None => shown
        case Some(s') => Enter(g, p, entry, flow, s', hop.path, Entries(g, c.dest, c.kind), shown).0;
      assert calls[..i][1..] == calls[1..][..i - 1] && calls[1..][i - 1..] == calls[i..];
      HopsInTwoParts(g, p, entry, flow, s, path, calls[1..], i - 1, below);
    }
  }

  /**
   * Following a hop once the budget is gone truncates the walk: whichever handler it enters, whether or not that
   * handler has been expanded before.
   */
  lemma FollowingUnpaidTruncates<S, K>(g: Graph, p: Policy<S, K>, entry: PortKey, flow: Flow, s: S, path: seq<Call>,
                                       calls: seq<Call>, i: nat, w: Progress<S, K>)
    requires i < |calls| && p.decide(calls[i], s).Some? && Entries(g, calls[i].dest, calls[i].kind) != []
    requires Hops(g, p, entry, flow, s, path, calls[..i], w).0.budget <= 0
    ensures Hops(g, p, entry, flow, s, path, calls, w).1
  {
    HopsInTwoParts(g, p, entry, flow, s, path, calls, i, w);
    var before, rest, c := Hops(g, p, entry, flow, s, path, calls[..i], w).0, calls[i..], calls[i];
    var shown := before.(log := before.log + [Hop(entry, flow, c, path + [c], s)]);
    assert rest != [] && rest[0] == c;
    assert Enter(g, p, entry, flow, p.decide(c, s).value, path + [c], Entries(g, c.dest, c.kind), shown).1;
    assert Hops(g, p, entry, flow, s, path, rest, before).1;
  }

  /** The same among several handlers behind one port: the next one is not entered for nothing. */
  lemma {:induction false} EnteringUnpaidTruncates<S, K>(g: Graph, p: Policy<S, K>, entry: PortKey, flow: Flow, s: S,
                                                         path: seq<Call>, nodes: seq<Node>, j: nat, w: Progress<S, K>)
    requires j < |nodes| && Enter(g, p, entry, flow, s, path, nodes[..j], w).0.budget <= 0
    ensures Enter(g, p, entry, flow, s, path, nodes, w).1
    decreases j
  {
    if j > 0 {
      var first := Descend(g, p, entry, flow, nodes[0], s, path, w).0;
      assert nodes[..j][1..] == nodes[1..][..j - 1];
      EnteringUnpaidTruncates(g, p, entry, flow, s, path, nodes[1..], j - 1, first);
    }
  }

  // ---------------------------------------------------------------------------------------------
  // Whole walks
  // ---------------------------------------------------------------------------------------------

  ghost function Descent<S, K>(g: Graph, p: Policy<S, K>, entry: PortKey, s0: S, n: Node, budget: int)
    : (Progress<S, K>, bool)
  {
    Descend(g, p, entry, n.flow, n, s0, [], Progress([], budget, []))
  }

  /** The markers all descents of one walk expand, in order. */
  ghost function WalkMarkers<S, K>(g: Graph, p: Policy<S, K>, entry: PortKey, s0: S, nodes: seq<Node>, budget: int)
    : (r: seq<(Node, K)>)
    ensures |r| == budget - WalkFrom(g, p, entry, s0, nodes, budget).budget
    ensures budget <= 0 ==> r == []
  {
    if nodes == [] then []
    else
      var first := Descent(g, p, entry, s0, nodes[0], budget).0;
      first.expanded + WalkMarkers(g, p, entry, s0, nodes[1..], first.budget)
  }

  lemma {:induction false} WalkRicher<S, K>(g: Graph, p: Policy<S, K>, entry: PortKey, s0: S, nodes: seq<Node>,
                                            budget: int, more: int)
    requires budget <= more
    ensures WalkMarkers(g, p, entry, s0, nodes, budget) <= WalkMarkers(g, p, entry, s0, nodes, more)
    ensures var a, b := WalkFrom(g, p, entry, s0, nodes, budget), WalkFrom(g, p, entry, s0, nodes, more);
      !a.truncated ==> b == a.(budget := a.budget + (more - budget))
    ensures !WalkFrom(g, p, entry, s0, nodes, budget).truncated ==>
              WalkMarkers(g, p, entry, s0, nodes, budget) == WalkMarkers(g, p, entry, s0, nodes, more)
  {
    if nodes != [] {
      var n, w: Progress<S, K>, v: Progress<S, K> := nodes[0], Progress([], budget, []), Progress([], more, []);
      DescendRicher(g, p, entry, n.flow, n, s0, [], w, v);
      var a, b := Descent(g, p, entry, s0, nodes[0], budget), Descent(g, p, entry, s0, nodes[0], more);
      if !a.1 {
        WalkRicher(g, p, entry, s0, nodes[1..], a.0.budget, b.0.budget);
      }
    }
  }

  ghost function LockMarkers(g: Graph, depth: int, entry: PortKey, budget: int): (r: seq<(Node, set<Name>)>)
    ensures |r| == budget - LockWalk(g, depth, entry, budget).budget
    ensures budget <= 0 ==> r == []
  {
    var s0: LockStack := [entry.instance];
    WalkMarkers(g, LockPolicy(depth), entry, s0, Entries(g, entry, Guarded), budget)
  }

  lemma LockRicher(g: Graph, depth: int, entry: PortKey, budget: int, more: int)
    requires budget <= more
    ensures LockMarkers(g, depth, entry, budget) <= LockMarkers(g, depth, entry, more)
    ensures var a, b := LockWalk(g, depth, entry, budget), LockWalk(g, depth, entry, more);
      !a.truncated ==> b == a.(budget := a.budget + (more - budget))
    ensures !LockWalk(g, depth, entry, budget).truncated ==>
              LockMarkers(g, depth, entry, budget) == LockMarkers(g, depth, entry, more)
  {
    var s0: LockStack := [entry.instance];
    WalkRicher(g, LockPolicy(depth), entry, s0, Entries(g, entry, Guarded), budget, more);
  }

  /** The markers all walks expand that share one budget, in order. */
  ghost function BuildMarkers(g: Graph, depth: int, entries: seq<PortKey>, budget: int): (r: seq<(Node, set<Name>)>)
    ensures |r| == budget - BuildFrom(g, depth, entries, budget).budget
    ensures budget <= 0 ==> r == []
  {
    if entries == [] then []
    else
      LockMarkers(g, depth, entries[0], budget)
      + BuildMarkers(g, depth, entries[1..], LockWalk(g, depth, entries[0], budget).budget)
  }

  lemma PrefixOfBoth<T>(a: seq<T>, b: seq<T>, c: seq<T>, d: seq<T>)
    requires (a == c && b <= d) || (a <= c && b == [])
    ensures a + b <= c + d
  {
  }

  lemma {:induction false} BuildRicher(g: Graph, depth: int, entries: seq<PortKey>, budget: int, more: int)
    requires budget <= more
    ensures BuildMarkers(g, depth, entries, budget) <= BuildMarkers(g, depth, entries, more)
    ensures var a, b := BuildFrom(g, depth, entries, budget), BuildFrom(g, depth, entries, more);
      !a.truncated ==> b == a.(budget := a.budget + (more - budget))
  {
    if entries != [] {
      var e, rest := entries[0], entries[1..];
      LockRicher(g, depth, e, budget, more);
      var a, b := LockWalk(g, depth, e, budget), LockWalk(g, depth, e, more);
      if !a.truncated {
        BuildRicher(g, depth, rest, a.budget, b.budget);
        BuildFromParts(g, depth, entries, budget, more);
      }
      PrefixOfBoth(LockMarkers(g, depth, e, budget), BuildMarkers(g, depth, rest, a.budget),
                   LockMarkers(g, depth, e, more), BuildMarkers(g, depth, rest, b.budget));
    }
  }

  lemma BuildFromParts(g: Graph, depth: int, entries: seq<PortKey>, budget: int, more: int)
    requires entries != []
    requires var a, b := LockWalk(g, depth, entries[0], budget), LockWalk(g, depth, entries[0], more);
      !a.truncated && b == a.(budget := b.budget) && b.budget - a.budget == more - budget
    requires var a, b := LockWalk(g, depth, entries[0], budget), LockWalk(g, depth, entries[0], more);
      var x, y := BuildFrom(g, depth, entries[1..], a.budget), BuildFrom(g, depth, entries[1..], b.budget);
      !x.truncated ==> y == x.(budget := x.budget + (b.budget - a.budget))
    ensures var a, b := BuildFrom(g, depth, entries, budget), BuildFrom(g, depth, entries, more);
      !a.truncated ==> b == a.(budget := a.budget + (more - budget))
  {
  }

  /**
   * The analysis is truncated only when its budget is spent, on exactly that many markers, which are the first ones of
   * what any larger budget expands. If it is not truncated a larger budget observes the same; it is, if a larger one
   * expands more markers than it can pay for, and is not, if a larger one expands fewer.
   */
  lemma BudgetBuysTheFirstMarkers(g: Graph, depth: int, maxStates: int, more: int)
    requires 0 <= maxStates <= more
    ensures var mine := BuildMarkers(g, depth, GuardedEntries(g), maxStates);
      var all := BuildMarkers(g, depth, GuardedEntries(g), more);
      && mine <= all && (Build(g, depth, maxStates).truncated ==> |mine| == maxStates)
      && (|all| > maxStates ==> Build(g, depth, maxStates).truncated)
      && (|all| < maxStates ==> !Build(g, depth, maxStates).truncated)
    ensures !Build(g, depth, maxStates).truncated ==>
              !Build(g, depth, more).truncated && Build(g, depth, more).log == Build(g, depth, maxStates).log
  {
    BuildRicher(g, depth, GuardedEntries(g), maxStates, more);
  }
}
