/** The traversal as the program runs it: one visited set and one shared budget, changed in place. */
module Traversals {
  import opened Basics
  import opened Graph
  import opened Walk

  class Traversal<!S, !K(==)> {
    const g: Graph
    const policy: Policy<S, K>
    var visited: set<(Node, K)>
    var budget: int
    var log: seq<Hop<S>>
    ghost var expanded: seq<(Node, K)>

    ghost predicate Valid()
      reads this
    {
      visited == ToSet(expanded)
    }

    ghost function Now(): Progress<S, K>
      reads this
    {
      Progress(expanded, budget, log)
    }

    constructor (g: Graph, policy: Policy<S, K>, budget: int)
      ensures Valid() && this.g == g && this.policy == policy
      ensures Now() == Progress([], budget, [])
    {
      this.g, this.policy, this.budget := g, policy, budget;
      visited, log, expanded := {}, [], [];
    }

    method Descend(entry: PortKey, entryFlow: Flow, n: Node, state: S, path: seq<Call>) returns (truncated: bool)
      requires Valid()
      modifies this
      ensures Valid()
      ensures (Now(), truncated) == Walk.Descend(g, policy, entry, entryFlow, n, state, path, old(Now()))
      decreases Max0(budget), 0
    {
      if budget <= 0 {
        return true;
      }
      var marker := (n, policy.key(state));
      if marker in visited {
        return false;
      }
      visited, expanded := visited + {marker}, expanded + [marker];
      budget := budget - 1;

      truncated := CallAll(entry, entryFlow, state, path, Calls(g, n));
    }

    method CallAll(entry: PortKey, entryFlow: Flow, state: S, path: seq<Call>, calls: seq<Call>)
      returns (truncated: bool)
      requires Valid()
      modifies this
      ensures Valid()
      ensures (Now(), truncated) == Hops(g, policy, entry, entryFlow, state, path, calls, old(Now()))
      decreases Max0(budget), 2
    {
      truncated := false;
      ghost var begun := Now();
      for i := 0 to |calls|
        invariant Valid() && budget <= begun.budget
        invariant var rest := Hops(g, policy, entry, entryFlow, state, path, calls[i..], Now());
          Hops(g, policy, entry, entryFlow, state, path, calls, begun) == (rest.0, truncated || rest.1)
      {
        var c := calls[i];
        var hop := Hop(entry, entryFlow, c, path + [c], state);
        assert calls[i..][0] == c && calls[i..][1..] == calls[i + 1..];
        log := log + [hop];
        var next := policy.decide(c, state);
        if next.Some? {
          var t := EnterAll(entry, entryFlow, next.value, hop.path, Entries(g, c.dest, c.kind));
          truncated := truncated || t;
        }
      }
    }

    method EnterAll(entry: PortKey, entryFlow: Flow, state: S, path: seq<Call>, nodes: seq<Node>)
      returns (truncated: bool)
      requires Valid()
      modifies this
      ensures Valid()
      ensures (Now(), truncated) == Enter(g, policy, entry, entryFlow, state, path, nodes, old(Now()))
      decreases Max0(budget), 1
    {
      truncated := false;
      ghost var begun := Now();
      for j := 0 to |nodes|
        invariant Valid() && budget <= begun.budget
        invariant var rest := Enter(g, policy, entry, entryFlow, state, path, nodes[j..], Now());
          Enter(g, policy, entry, entryFlow, state, path, nodes, begun) == (rest.0, truncated || rest.1)
      {
        assert nodes[j..][1..] == nodes[j + 1..];
        var t := Descend(entry, entryFlow, nodes[j], state, path);
        truncated := truncated || t;
      }
    }

    /** Walks every chain from one handler behind the entry port, with nothing visited before. */
    method WalkHandler(entry: PortKey, n: Node, initial: S) returns (shown: seq<Hop<S>>, truncated: bool)
      modifies this
      ensures var first := Walk.Descend(g, policy, entry, n.flow, n, initial, [], Progress([], old(budget), []));
        shown == first.0.log && budget == first.0.budget && truncated == first.1
    {
      visited, log, expanded := {}, [], [];
      truncated := Descend(entry, n.flow, n, initial, []);
      shown := log;
    }

    /** Walks every chain leaving one input port; the budget is shared with earlier walks. */
    method WalkChains(entry: PortKey, kind: Kind, initial: S) returns (shown: seq<Hop<S>>, truncated: bool)
      modifies this
      ensures Walked(shown, budget, truncated) == Walk.WalkChains(g, policy, entry, kind, initial, old(budget))
    {
      var nodes := Entries(g, entry, kind);
      ghost var whole := WalkFrom(g, policy, entry, initial, nodes, budget);
      shown, truncated := [], false;
      for j := 0 to |nodes|
        invariant Adds(whole, shown, truncated, WalkFrom(g, policy, entry, initial, nodes[j..], budget))
      {
        AddsNext(g, policy, entry, initial, nodes, j, budget, whole, shown, truncated);
        var more, t := WalkHandler(entry, nodes[j], initial);
        shown, truncated := shown + more, truncated || t;
      }
    }
  }

  /** What has been walked, and the rest, make up the whole. */
  ghost predicate Adds<S>(whole: Walked<S>, shown: seq<Hop<S>>, truncated: bool, rest: Walked<S>) {
    && whole.log == shown + rest.log && whole.budget == rest.budget
    && whole.truncated == (truncated || rest.truncated)
  }

  lemma AddsNext<S, K>(g: Graph, p: Policy<S, K>, entry: PortKey, s0: S, nodes: seq<Node>, j: nat, budget: int,
                       whole: Walked<S>, shown: seq<Hop<S>>, truncated: bool)
    requires j < |nodes| && Adds(whole, shown, truncated, WalkFrom(g, p, entry, s0, nodes[j..], budget))
    ensures var first := Walk.Descend(g, p, entry, nodes[j].flow, nodes[j], s0, [], Progress([], budget, []));
      Adds(whole, shown + first.0.log, truncated || first.1, WalkFrom(g, p, entry, s0, nodes[j + 1..], first.0.budget))
  {
    var left := nodes[j..];
    assert left[0] == nodes[j] && left[1..] == nodes[j + 1..];
    var first := Walk.Descend(g, p, entry, left[0].flow, left[0], s0, [], Progress([], budget, []));
    Regroup(shown, first.0.log, WalkFrom(g, p, entry, s0, left[1..], first.0.budget).log);
  }
}
