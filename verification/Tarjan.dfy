/** Tarjan's algorithm as guarded_port_analyzer.py runs it, with its own work stack instead of recursion. */
module Tarjan {
  import opened Basics
  import opened Components

  // A node being explored and the index of the next child to look at.
  datatype Frame = Frame(node: Name, next: nat)

  ghost predicate StackShows(s: Search, stack: seq<Name>) {
    && (forall v :: v in stack <==> v in s.waiting)
    && (forall i, j :: 0 <= i < j < |stack| ==> At(s.num, stack[i]) < At(s.num, stack[j]))
  }

  /** A frame whose current child is being explored above it. */
  ghost predicate Between(adj: Adjacency, s: Search, f: Frame, child: Name) {
    && f.next == At(s.scanned, f.node) + 1 && f.next <= |Children(adj, f.node)|
    && Children(adj, f.node)[f.next - 1] == child
  }

  ghost predicate HasFrame(frames: seq<Frame>, v: Name) {
    exists i :: 0 <= i < |frames| && frames[i].node == v
  }

  ghost predicate Explores(s: Search, frames: seq<Frame>) {
    && (forall i :: 0 <= i < |frames| ==> frames[i].node in s.open)
    && (forall v {:trigger HasFrame(frames, v)} :: v in s.open ==> HasFrame(frames, v))
    && (forall i, j :: 0 <= i < j < |frames| ==> At(s.num, frames[i].node) < At(s.num, frames[j].node))
  }

  ghost predicate Chained(adj: Adjacency, s: Search, work: seq<Frame>) {
    forall i {:trigger Between(adj, s, work[i], work[i + 1].node)} ::
      0 <= i < |work| - 1 ==> Between(adj, s, work[i], work[i + 1].node)
  }

  /** The work stack between two children of its top node. */
  ghost predicate Settled(adj: Adjacency, s: Search, work: seq<Frame>) {
    Explores(s, work) && Chained(adj, s, work) && (work != [] ==> Last(work).next == At(s.scanned, Last(work).node))
  }

  /** The work stack with a node on top that has not been entered yet. */
  ghost predicate Fresh(adj: Adjacency, s: Search, work: seq<Frame>) {
    && work != [] && Explores(s, Init(work)) && Chained(adj, s, work)
    && Last(work).next == 0 && Last(work).node in adj && Last(work).node !in s.num
  }

  lemma TopOf(adj: Adjacency, s: Search, work: seq<Frame>)
    requires Explores(s, work)
    ensures work == [] <==> s.open == {}
    ensures work != [] ==> Top(s, Last(work).node)
    ensures |work| >= 2 ==> Second(s, Last(work).node, work[|work| - 2].node)
  {
    if work != [] {
      assert Last(work).node in s.open;
    }
    assert forall v :: v in s.open ==> HasFrame(work, v);
    forall h | work != [] && h in s.open ensures At(s.num, h) <= At(s.num, Last(work).node) {
      assert HasFrame(work, h);
      var i :| 0 <= i < |work| && work[i].node == h;
    }
    forall h | |work| >= 2 && h in s.open && h != Last(work).node
      ensures At(s.num, h) <= At(s.num, work[|work| - 2].node)
    {
      assert HasFrame(work, h);
      var i :| 0 <= i < |work| && work[i].node == h;
    }
  }

  lemma FrameStays(work: seq<Frame>, u: Name)
    requires work != [] && (u == Last(work).node || HasFrame(Init(work), u))
    ensures HasFrame(work, u)
  {
    if u == Last(work).node {
      assert work[|work| - 1].node == u;
    } else {
      var i :| 0 <= i < |Init(work)| && Init(work)[i].node == u;
      assert work[i].node == u;
    }
  }

  lemma EnterExplores(adj: Adjacency, s: Search, work: seq<Frame>)
    requires Domains(adj, s) && Numbered(s) && Fresh(adj, s, work)
    ensures Explores(Enter(s, Last(work).node), work)
  {
    var below, t := Init(work), Enter(s, Last(work).node);
    assert forall i :: 0 <= i < |below| ==> below[i].node in s.open && work[i] == below[i];
    forall u | u in t.open ensures HasFrame(work, u) {
      if u != Last(work).node {
        assert HasFrame(below, u);
      }
      FrameStays(work, u);
    }
    forall i, j | 0 <= i < j < |work| ensures At(t.num, work[i].node) < At(t.num, work[j].node) {
      assert work[i] == below[i];
    }
  }

  lemma EnterChains(adj: Adjacency, s: Search, work: seq<Frame>)
    requires Domains(adj, s) && Numbered(s) && Fresh(adj, s, work)
    ensures Chained(adj, Enter(s, Last(work).node), work)
  {
    var below, t := Init(work), Enter(s, Last(work).node);
    forall i | 0 <= i < |work| - 1 ensures Between(adj, t, work[i], work[i + 1].node) {
      assert Between(adj, s, work[i], work[i + 1].node);
      assert below[i].node in s.open && below[i] == work[i];
    }
  }

  lemma EnterFrames(adj: Adjacency, s: Search, work: seq<Frame>)
    requires Domains(adj, s) && Numbered(s) && Fresh(adj, s, work)
    ensures Settled(adj, Enter(s, Last(work).node), work)
  {
    EnterExplores(adj, s, work);
    EnterChains(adj, s, work);
  }

  lemma FreshCanEnter(adj: Adjacency, s: Search, work: seq<Frame>)
    requires Fresh(adj, s, work)
    ensures CanEnter(adj, s, if |work| == 1 then None else Some(work[|work| - 2].node), Last(work).node)
  {
    TopOf(adj, s, Init(work));
    if |work| > 1 {
      var i := |work| - 2;
      assert Between(adj, s, work[i], work[i + 1].node);
      assert Init(work)[i].node in s.open;
    }
  }

  lemma EnterStep(adj: Adjacency, s: Search, work: seq<Frame>)
    requires Inv(adj, s) && Fresh(adj, s, work)
    ensures var t := Enter(s, Last(work).node); Inv(adj, t) && Settled(adj, t, work)
  {
    FreshCanEnter(adj, s, work);
    EnterFrames(adj, s, work);
    EnterKeeps(adj, s, if |work| == 1 then None else Some(work[|work| - 2].node), Last(work).node);
  }

  function Advanced(work: seq<Frame>): seq<Frame>
    requires work != []
  {
    Init(work) + [Frame(Last(work).node, Last(work).next + 1)]
  }

  lemma SameNodes(s: Search, t: Search, work: seq<Frame>, work': seq<Frame>)
    requires Explores(s, work) && t.num == s.num && t.open == s.open && |work'| == |work|
    requires forall i :: 0 <= i < |work| ==> work'[i].node == work[i].node
    ensures Explores(t, work')
  {
    forall v | v in t.open ensures HasFrame(work', v) {
      assert HasFrame(work, v);
      var i :| 0 <= i < |work| && work[i].node == v;
      assert work'[i].node == v;
    }
  }

  lemma ScanFrames(adj: Adjacency, s: Search, work: seq<Frame>, child: Name)
    requires Settled(adj, s, work) && work != []
    ensures Settled(adj, Scan(s, Last(work).node, child), Advanced(work))
  {
    var t, next := Scan(s, Last(work).node, child), Advanced(work);
    SameNodes(s, t, work, next);
    forall i | 0 <= i < |next| - 1 ensures Between(adj, t, next[i], next[i + 1].node) {
      assert Between(adj, s, work[i], work[i + 1].node);
      assert At(s.num, work[i].node) < At(s.num, work[|work| - 1].node);
    }
  }

  lemma ScanStep(adj: Adjacency, s: Search, work: seq<Frame>, child: Name)
    requires Inv(adj, s) && Settled(adj, s, work) && work != []
    requires Last(work).next < |Children(adj, Last(work).node)|
    requires Children(adj, Last(work).node)[Last(work).next] == child && child in s.num
    ensures var t := Scan(s, Last(work).node, child); Inv(adj, t) && Settled(adj, t, Advanced(work))
  {
    TopOf(adj, s, work);
    ScanKeeps(adj, s, Last(work).node, child);
    ScanFrames(adj, s, work, child);
  }

  lemma DescendStep(adj: Adjacency, s: Search, work: seq<Frame>, child: Name)
    requires Closed(adj) && Settled(adj, s, work) && work != []
    requires Last(work).next < |Children(adj, Last(work).node)|
    requires Children(adj, Last(work).node)[Last(work).next] == child && child !in s.num
    ensures Fresh(adj, s, Advanced(work) + [Frame(child, 0)])
  {
    var next := Advanced(work) + [Frame(child, 0)];
    assert Init(next) == Advanced(work);
    SameNodes(s, s, work, Advanced(work));
    assert Edge(adj, Last(work).node, child);
    forall i | 0 <= i < |next| - 1 ensures Between(adj, s, next[i], next[i + 1].node) {
      if i < |work| - 1 {
        assert Between(adj, s, work[i], work[i + 1].node);
        assert next[i] == work[i] && next[i + 1].node == work[i + 1].node;
      }
    }
  }

  /** Leaving a node takes its frame off; the frame below has then looked at it. */
  lemma FramesBelow(s: Search, u: Search, work: seq<Frame>)
    requires Explores(s, work) && work != [] && u.num == s.num && u.open == s.open - {Last(work).node}
    ensures Explores(u, Init(work))
  {
    var below := Init(work);
    assert forall i :: 0 <= i < |below| ==> below[i] == work[i];
    forall v | v in u.open ensures HasFrame(below, v) {
      assert HasFrame(work, v);
      var i :| 0 <= i < |work| && work[i].node == v;
      assert below[i].node == v;
    }
    forall i | 0 <= i < |below| ensures below[i].node in u.open {
      assert At(s.num, work[i].node) < At(s.num, work[|work| - 1].node);
    }
  }

  lemma FrameBelow(adj: Adjacency, s: Search, t: Search, work: seq<Frame>)
    requires Settled(adj, s, work) && |work| >= 2 && Last(work).node in t.num
    requires t.num == s.num && t.open == s.open - {Last(work).node} && t.scanned == s.scanned
    requires Top(t, work[|work| - 2].node)
    ensures CanScan(adj, t, work[|work| - 2].node, Last(work).node)
    ensures Settled(adj, Scan(t, work[|work| - 2].node, Last(work).node), Init(work))
  {
    var below, node, parent := Init(work), Last(work).node, work[|work| - 2].node;
    var u := Scan(t, parent, node);
    var last := |work| - 2;
    assert Between(adj, s, work[last], work[last + 1].node);
    FramesBelow(s, u, work);
    assert forall i :: 0 <= i < |below| ==> below[i] == work[i];
    forall i | 0 <= i < |below| - 1 ensures Between(adj, u, below[i], below[i + 1].node) {
      assert Between(adj, s, work[i], work[i + 1].node);
      assert At(s.num, work[i].node) < At(s.num, work[|work| - 2].node);
    }
  }

  ghost function AfterLeave(s: Search, node: Name, parent: Name): Search {
    Scan(Leave(s, node, parent), parent, node)
  }

  lemma LeaveStep(adj: Adjacency, s: Search, work: seq<Frame>)
    requires Inv(adj, s) && Settled(adj, s, work) && work != []
    requires Last(work).next == |Children(adj, Last(work).node)|
        && At(s.low, Last(work).node) < At(s.num, Last(work).node)
    ensures |work| >= 2
    ensures var t := AfterLeave(s, Last(work).node, work[|work| - 2].node);
      && Inv(adj, t) && Settled(adj, t, Init(work)) && t.waiting == s.waiting && t.num == s.num && t.count == s.count
      && t.low == Leave(s, Last(work).node, work[|work| - 2].node).low && t.result == s.result
  {
    var node := Last(work).node;
    TopOf(adj, s, work);
    SecondFrame(adj, s, work);
    var parent := work[|work| - 2].node;
    LeaveKeeps(adj, s, node, parent);
    FrameBelow(adj, s, Leave(s, node, parent), work);
    LateScan(adj, Leave(s, node, parent), parent, node);
  }

  /** Looking at a child numbered later leaves the low link as it is. */
  lemma LateScan(adj: Adjacency, s: Search, top: Name, child: Name)
    requires Inv(adj, s) && CanScan(adj, s, top, child) && At(s.num, top) <= At(s.num, child)
    ensures Inv(adj, Scan(s, top, child)) && Scan(s, top, child).low == s.low
  {
    ScanKeeps(adj, s, top, child);
    assert LowWitness(adj, s, top);
  }

  lemma SecondFrame(adj: Adjacency, s: Search, work: seq<Frame>)
    requires Inv(adj, s) && Explores(s, work) && work != [] && Top(s, Last(work).node)
    requires At(s.low, Last(work).node) < At(s.num, Last(work).node)
    ensures |work| >= 2 && At(s.num, work[|work| - 2].node) < At(s.num, Last(work).node)
  {
    var w, g := LowerNodeIsOpen(adj, s, Last(work).node);
    FrameOfAnother(s, work, g);
  }

  lemma FrameOfAnother(s: Search, work: seq<Frame>, g: Name)
    requires Explores(s, work) && work != [] && g in s.open && g != Last(work).node
    ensures |work| >= 2 && At(s.num, work[|work| - 2].node) < At(s.num, Last(work).node)
  {
    assert HasFrame(work, g);
    var i :| 0 <= i < |work| && work[i].node == g;
  }

  ghost function AfterEmit(s: Search, work: seq<Frame>, group: seq<Name>): Search
    requires work != []
  {
    var t := Emit(s, Last(work).node, group);
    if |work| == 1 then t else Scan(t, work[|work| - 2].node, Last(work).node)
  }

  lemma EmitStep(adj: Adjacency, s: Search, work: seq<Frame>, group: seq<Name>)
    requires Inv(adj, s) && Settled(adj, s, work) && work != []
    requires Last(work).next == |Children(adj, Last(work).node)| && Completes(adj, s, Last(work).node, group)
    ensures var t := AfterEmit(s, work, group);
      && Inv(adj, t) && Settled(adj, t, Init(work)) && t.waiting == s.waiting - ToSet(group) && t.num == s.num
      && t.count == s.count && t.low == s.low && t.result == s.result + [group]
  {
    var node, below := Last(work).node, Init(work);
    var t := Emit(s, node, group);
    TopOf(adj, s, work);
    EmitKeeps(adj, s, node, group);
    if below == [] {
      assert t.open == {} by {
        forall v | v in s.open ensures v == node {
          assert HasFrame(work, v);
          var i :| 0 <= i < |work| && work[i].node == v;
        }
      }
    } else {
      var parent := work[|work| - 2].node;
      assert Top(t, parent);
      FrameBelow(adj, s, t, work);
      LateScan(adj, t, parent, node);
    }
  }

  /** The group is what was popped down to and including the node, last in first out. */
  ghost predicate Popped(stack: seq<Name>, stack': seq<Name>, group: seq<Name>, node: Name) {
    && |stack'| + |group| == |stack| && stack' <= stack && group != [] && Last(group) == node
    && forall j :: 0 <= j < |group| ==> group[j] == stack[|stack| - 1 - j]
  }

  /** Pops the waiting nodes down to and including `node`. */
  method PopGroup(stack: seq<Name>, onStack: set<Name>, node: Name)
    returns (stack': seq<Name>, onStack': set<Name>, group: seq<Name>)
    requires node in stack
    ensures Popped(stack, stack', group, node) && onStack' == onStack - ToSet(group)
  {
    stack', onStack', group := stack, onStack, [];
    while true
      invariant stack' <= stack && |stack'| + |group| == |stack| && node in stack' && node !in group
      invariant forall j :: 0 <= j < |group| ==> group[j] == stack[|stack| - 1 - j]
      invariant onStack' == onStack - ToSet(group)
      decreases |stack'|
    {
      var member := Last(stack');
      ghost var popped := group;
      stack' := Init(stack');
      onStack' := onStack' - {member};
      group := group + [member];
      assert ToSet(group) == ToSet(popped) + {member};
      assert group[..|group| - 1] == popped;
      if member == node {
        break;
      }
      assert node in stack' by {
        var i :| 0 <= i < |stack'| + 1 && stack[i] == node;
        assert stack'[i] == node;
      }
    }
  }

  lemma PoppedIsGroup(s: Search, stack: seq<Name>, stack': seq<Name>, group: seq<Name>, node: Name, v: Name)
    requires StackShows(s, stack) && Popped(stack, stack', group, node)
    ensures v in group <==> v in s.waiting && At(s.num, node) <= At(s.num, v)
    ensures v in stack' <==> v in s.waiting && At(s.num, v) < At(s.num, node)
  {
    var p := |stack'|;
    assert stack[p] == node;
    if v in s.waiting {
      var i :| 0 <= i < |stack| && stack[i] == v;
      if i < p {
        assert stack'[i] == v;
      } else {
        assert group[|stack| - 1 - i] == v;
      }
    }
  }

  lemma PoppedCompletes(adj: Adjacency, s: Search, stack: seq<Name>, stack': seq<Name>, group: seq<Name>, node: Name)
    requires Domains(adj, s) && Numbered(s) && StackShows(s, stack) && Exhausted(adj, s, node)
    requires At(s.low, node) == At(s.num, node)
    requires Popped(stack, stack', group, node)
    ensures Completes(adj, s, node, group)
    ensures forall v :: v in stack' <==> v in s.waiting - ToSet(group)
  {
    forall v ensures v in group <==> v in s.waiting && At(s.num, node) <= At(s.num, v)
             ensures v in stack' <==> v in s.waiting && At(s.num, v) < At(s.num, node)
    {
      PoppedIsGroup(s, stack, stack', group, node, v);
    }
  }

  // The mutable data of the search.
  datatype Tables = Tables(
    counter: nat,
    index: map<Name, nat>,
    low: map<Name, nat>,
    stack: seq<Name>,
    onStack: set<Name>,
    result: seq<seq<Name>>)

  /** The tables are the abstract search `s`, up to how many children have been looked at. */
  ghost predicate Shows(s: Search, d: Tables) {
    && d.counter == s.count && d.index == s.num && d.low == s.low && d.onStack == s.waiting && d.result == s.result
    && StackShows(s, d.stack)
  }

  function Entered(d: Tables, node: Name): Tables {
    d.(index := d.index[node := d.counter], low := d.low[node := d.counter], counter := d.counter + 1,
       stack := d.stack + [node], onStack := d.onStack + {node})
  }

  lemma EnterShows(adj: Adjacency, s: Search, d: Tables, node: Name)
    requires Domains(adj, s) && Numbered(s) && Shows(s, d) && node !in s.num
    ensures Shows(Enter(s, node), Entered(d, node))
  {
    assert forall i :: 0 <= i < |d.stack| ==> d.stack[i] in s.waiting;
  }

  /** Numbers the node on top of the work stack and puts it on the stack. */
  method EnterNode(adj: Adjacency, d: Tables, work: seq<Frame>, ghost s: Search) returns (d': Tables, ghost s': Search)
    requires Inv(adj, s) && Fresh(adj, s, work) && Shows(s, d)
    ensures s' == Enter(s, Last(work).node) && Inv(adj, s') && Settled(adj, s', work) && Shows(s', d')
  {
    var node := Last(work).node;
    EnterStep(adj, s, work);
    EnterShows(adj, s, d, node);
    d' := Entered(d, node);
    s' := Enter(s, node);
  }

  /** Looks at one child that has a number already. */
  method ScanChild(adj: Adjacency, d: Tables, work: seq<Frame>, child: Name, ghost s: Search)
    returns (d': Tables, work': seq<Frame>, ghost s': Search)
    requires Inv(adj, s) && Settled(adj, s, work) && Shows(s, d) && work != []
    requires Last(work).next < |Children(adj, Last(work).node)|
    requires Children(adj, Last(work).node)[Last(work).next] == child && child in s.num
    ensures Inv(adj, s') && Settled(adj, s', work') && Shows(s', d') && s'.num == s.num
    ensures work' == Advanced(work) && |work'| == |work|
    ensures Last(work').node == Last(work).node && Last(work').next == Last(work).next + 1
  {
    var node := Last(work).node;
    d', work', s' := d, Advanced(work), Scan(s, node, child);
    if child in d.onStack {
      d' := d.(low := d.low[node := Min(At(d.low, node), At(d.index, child))]);
    }
    ScanStep(adj, s, work, child);
  }

  /** Looks at children of the top node from `work`'s position on, up to one that is new. */
  method ScanChildren(adj: Adjacency, d: Tables, work: seq<Frame>, ghost s: Search)
    returns (d': Tables, work': seq<Frame>, recursed: bool, ghost s': Search)
    requires Inv(adj, s) && Settled(adj, s, work) && Shows(s, d) && work != [] && Last(work).node in adj
    ensures Inv(adj, s') && Shows(s', d') && s'.num == s.num
    ensures recursed ==> Fresh(adj, s', work') && |work'| == |work| + 1
    ensures !recursed ==> Settled(adj, s', work') && |work'| == |work| && Last(work').node == Last(work).node
                          && Last(work').next == |Children(adj, Last(work).node)|
  {
    var node, children := Last(work).node, adj[Last(work).node];
    d', work', s' := d, work, s;
    ScanBound(adj, s, work);
    for i := Last(work).next to |children|
      invariant Inv(adj, s') && Settled(adj, s', work') && Shows(s', d') && s'.num == s.num
      invariant |work'| == |work| && Last(work').node == node && Last(work').next == i
    {
      var child := children[i];
      if child !in d'.index {
        DescendStep(adj, s', work', child);
        return d', Advanced(work') + [Frame(child, 0)], true, s';
      }
      d', work', s' := ScanChild(adj, d', work', child, s');
    }
    recursed := false;
  }

  lemma ScanBound(adj: Adjacency, s: Search, work: seq<Frame>)
    requires Inv(adj, s) && Settled(adj, s, work) && work != []
    ensures Last(work).next <= |Children(adj, Last(work).node)|
  {
    assert Last(work).node in s.open;
  }

  lemma TopWaits(adj: Adjacency, s: Search, work: seq<Frame>, stack: seq<Name>)
    requires Domains(adj, s) && Explores(s, work) && StackShows(s, stack) && work != []
    ensures Last(work).node in stack
  {
    assert work[|work| - 1].node in s.open;
  }

  lemma EmitShows(s: Search, t: Search, d: Tables, stack: seq<Name>, group: seq<Name>)
    requires Shows(s, d) && t.num == s.num && t.count == s.count && t.low == s.low && t.result == s.result + [group]
    requires t.waiting == s.waiting - ToSet(group) && stack <= d.stack && forall v :: v in stack <==> v in t.waiting
    ensures Shows(t, d.(stack := stack, onStack := d.onStack - ToSet(group), result := d.result + [group]))
  {
  }

  lemma EmitGroupStep(adj: Adjacency, d: Tables, work: seq<Frame>, s: Search, stack: seq<Name>, group: seq<Name>)
    requires Inv(adj, s) && Settled(adj, s, work) && Shows(s, d) && work != []
    requires Last(work).next == |Children(adj, Last(work).node)|
    requires At(s.low, Last(work).node) == At(s.num, Last(work).node)
    requires Popped(d.stack, stack, group, Last(work).node)
    ensures var t := AfterEmit(s, work, group);
      && Inv(adj, t) && Settled(adj, t, Init(work)) && t.num == s.num && t.low == s.low
      && Shows(t, d.(stack := stack, onStack := d.onStack - ToSet(group), result := d.result + [group]))
  {
    TopOf(adj, s, work);
    PoppedCompletes(adj, s, d.stack, stack, group, Last(work).node);
    EmitStep(adj, s, work, group);
    EmitShows(s, AfterEmit(s, work, group), d, stack, group);
  }

  /** Emits the group of the top node. */
  method EmitGroup(adj: Adjacency, d: Tables, work: seq<Frame>, ghost s: Search) returns (d': Tables, ghost s': Search)
    requires Inv(adj, s) && Settled(adj, s, work) && Shows(s, d) && work != []
    requires Last(work).next == |Children(adj, Last(work).node)|
    requires At(s.low, Last(work).node) == At(s.num, Last(work).node)
    ensures Inv(adj, s') && Settled(adj, s', Init(work)) && Shows(s', d') && s'.num == s.num && s'.low == s.low
  {
    TopWaits(adj, s, work, d.stack);
    var stack, onStack, group := PopGroup(d.stack, d.onStack, Last(work).node);
    EmitGroupStep(adj, d, work, s, stack, group);
    d' := d.(stack := stack, onStack := onStack, result := d.result + [group]);
    s' := AfterEmit(s, work, group);
  }

  /** Leaves the top node: emits its group if it is complete, and passes its low link to the node below. */
  method LeaveNode(adj: Adjacency, d: Tables, work: seq<Frame>, ghost s: Search)
    returns (d': Tables, work': seq<Frame>, ghost s': Search)
    requires Inv(adj, s) && Settled(adj, s, work) && Shows(s, d) && work != []
    requires Last(work).next == |Children(adj, Last(work).node)|
    ensures Inv(adj, s') && Settled(adj, s', work') && Shows(s', d') && s'.num == s.num && work' == Init(work)
    ensures work' != [] ==> Last(work').next > 0
  {
    var node := Last(work).node;
    d', work' := d, Init(work);
    LowIsBelow(adj, s, work);
    if |work| >= 2 {
      FrameBelowHasLooked(adj, s, work);
    }
    if At(d.low, node) == At(d.index, node) {
      d', s' := EmitGroup(adj, d, work, s);
      LowOfParent(adj, s, work);
    } else {
      s' := AfterLeave(s, node, work[|work| - 2].node);
      LeaveStep(adj, s, work);
    }
    if work' != [] {
      var parent := Last(work').node;
      d' := d'.(low := d'.low[parent := Min(At(d'.low, parent), At(d'.low, node))]);
    }
  }

  lemma LowIsBelow(adj: Adjacency, s: Search, work: seq<Frame>)
    requires Inv(adj, s) && Explores(s, work) && work != []
    ensures At(s.low, Last(work).node) <= At(s.num, Last(work).node)
    ensures At(s.low, Last(work).node) < At(s.num, Last(work).node) ==> |work| >= 2
  {
    assert LowWitness(adj, s, Last(work).node);
    TopOf(adj, s, work);
    if At(s.low, Last(work).node) < At(s.num, Last(work).node) {
      SecondFrame(adj, s, work);
    }
  }

  lemma FrameBelowHasLooked(adj: Adjacency, s: Search, work: seq<Frame>)
    requires Settled(adj, s, work) && |work| >= 2
    ensures work[|work| - 2].next > 0
  {
    var i := |work| - 2;
    assert Between(adj, s, work[i], work[i + 1].node);
  }

  /** The low link of a complete group's root cannot lower the one below it. */
  lemma LowOfParent(adj: Adjacency, s: Search, work: seq<Frame>)
    requires Inv(adj, s) && Settled(adj, s, work) && work != []
    requires At(s.low, Last(work).node) == At(s.num, Last(work).node)
    ensures |work| >= 2 ==> var p := work[|work| - 2].node;
              s.low[p := Min(At(s.low, p), At(s.low, Last(work).node))] == s.low
  {
    if |work| >= 2 {
      var p := work[|work| - 2].node;
      assert LowWitness(adj, s, p);
      assert At(s.num, p) < At(s.num, work[|work| - 1].node);
    }
  }

  /** A node on top that is still to be entered, or one that has been. */
  ghost predicate Ready(adj: Adjacency, s: Search, work: seq<Frame>) {
    if Entering(work) then Fresh(adj, s, work) else Settled(adj, s, work)
  }

  predicate Entering(work: seq<Frame>) {
    work != [] && Last(work).next == 0
  }

  /** Enters the top node if it is new. */
  method EnterIfNew(adj: Adjacency, d: Tables, work: seq<Frame>, ghost s: Search) returns (d': Tables, ghost s': Search)
    requires Inv(adj, s) && Shows(s, d) && Ready(adj, s, work) && work != []
    ensures Inv(adj, s') && Shows(s', d') && Settled(adj, s', work) && Last(work).node in adj
    ensures Entering(work) ==> Last(work).node !in s.num && s'.num.Keys == s.num.Keys + {Last(work).node}
    ensures !Entering(work) ==> s'.num == s.num
  {
    if Last(work).next == 0 {
      d', s' := EnterNode(adj, d, work, s);
    } else {
      d', s' := d, s;
      TopIsNode(adj, s, work);
    }
  }

  lemma TopIsNode(adj: Adjacency, s: Search, work: seq<Frame>)
    requires Inv(adj, s) && Explores(s, work) && work != []
    ensures Last(work).node in adj
  {
    assert work[|work| - 1].node in s.open;
  }

  /** Scans on from the top node, and leaves it when nothing is left to scan. */
  method ScanOrLeave(adj: Adjacency, d: Tables, work: seq<Frame>, ghost s: Search)
    returns (d': Tables, work': seq<Frame>, ghost s': Search)
    requires Inv(adj, s) && Shows(s, d) && Settled(adj, s, work) && work != [] && Last(work).node in adj
    ensures Inv(adj, s') && Shows(s', d') && Ready(adj, s', work') && s'.num == s.num
    ensures Entering(work') || |work'| < |work|
  {
    var recursed;
    d', work', recursed, s' := ScanChildren(adj, d, work, s);
    if !recursed {
      d', work', s' := LeaveNode(adj, d', work', s');
    }
  }

  /** Explores everything reachable from one root that has no number yet. */
  method Explore(adj: Adjacency, d: Tables, root: Name, ghost s: Search) returns (d': Tables, ghost s': Search)
    requires Inv(adj, s) && s.open == {} && Shows(s, d) && root in adj && root !in s.num
    ensures Inv(adj, s') && s'.open == {} && Shows(s', d') && root in s'.num && s.num.Keys <= s'.num.Keys
  {
    d', s' := d, s;
    var work := [Frame(root, 0)];
    while work != []
      invariant Inv(adj, s') && Shows(s', d') && s.num.Keys <= s'.num.Keys
      invariant Ready(adj, s', work) && (root in s'.num || work == [Frame(root, 0)])
      decreases adj.Keys - s'.num.Keys, if Entering(work) then 0 else 1, |work|
    {
      d', s' := EnterIfNew(adj, d', work, s');
      d', work, s' := ScanOrLeave(adj, d', work, s');
    }
    TopOf(adj, s', work);
  }

  const NOTHING_FOUND := Search(0, map[], map[], map[], {}, {}, [])

  lemma NothingFound(adj: Adjacency)
    requires Closed(adj)
    ensures Inv(adj, NOTHING_FOUND) && Shows(NOTHING_FOUND, Tables(0, map[], map[], [], {}, []))
  {
  }

  ghost predicate AllNumbered(s: Search, roots: seq<Name>) {
    forall v :: v in roots ==> v in s.num
  }

  /** Once every root has a number and nothing is being explored, every node is in an emitted group. */
  lemma AllAreEmitted(adj: Adjacency, s: Search, roots: seq<Name>)
    requires Inv(adj, s) && s.open == {} && AllNumbered(s, roots) && forall v :: v in adj ==> v in roots
    ensures AreComponents(adj, s.result)
  {
    assert forall x :: x in s.waiting ==> ReachesOpenBelow(adj, s, x);
    assert forall v :: v in s.num <==> v in adj;
  }

  method ExploreAll(adj: Adjacency, roots: seq<Name>) returns (d: Tables, ghost s: Search)
    requires Closed(adj) && forall v :: v in roots ==> v in adj
    ensures Inv(adj, s) && s.open == {} && Shows(s, d) && AllNumbered(s, roots)
  {
    d, s := Tables(0, map[], map[], [], {}, []), NOTHING_FOUND;
    NothingFound(adj);
    for i := 0 to |roots|
      invariant Inv(adj, s) && s.open == {} && Shows(s, d) && AllNumbered(s, roots[..i])
    {
      var root := roots[i];
      assert forall v :: v in roots[..i + 1] <==> v in roots[..i] || v == root;
      if root !in d.index {
        d, s := Explore(adj, d, root, s);
      }
    }
    assert roots[..|roots|] == roots;
  }

  /** The strongly connected components of a finite graph, every root in ascending order. */
  method StronglyConnected(adj: Adjacency) returns (result: seq<seq<Name>>)
    requires Closed(adj)
    ensures AreComponents(adj, result)
  {
    var roots := Sorted(adj.Keys);
    ghost var s;
    var d;
    d, s := ExploreAll(adj, roots);
    AllAreEmitted(adj, s, roots);
    result := d.result;
  }
}
