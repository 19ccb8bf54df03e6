/** Soundness of the deadlock analysis: what can deadlock at run time is reported. */
module Deadlock {
  import opened Basics
  import opened Graph
  import opened Threads
  import opened LockOrder
  import opened LockGraph
  import opened Limits
  import opened Exactness
  import opened Cycles
  import opened Analyzer
  import opened Runtime

  // ---------------------------------------------------------------------------------------------
  // What a thread's stack says about the graph
  // ---------------------------------------------------------------------------------------------

  lemma CallsOfSlice(frames: seq<Frame>, i: nat, j: nat)
    requires i < j <= |frames|
    ensures CallsOf(frames[i..j]) == CallsOf(frames[i..j - 1]) + [frames[j - 1].call]
  {
    var part := frames[i..j];
    assert Init(part) == frames[i..j - 1];
    assert Last(part) == frames[j - 1];
  }

  lemma FramesAreAChain(g: Graph, t: Name, r: ThreadState, i: nat, j: nat)
    requires r.Running? && ThreadOk(g, t, r) && i <= j <= |r.frames|
    ensures Chain(g, NodeAt(r, i), CallsOf(r.frames[i..j]), NodeAt(r, j))
  {
    FramesChain(g, r, i, j);
  }

  lemma {:induction false} FramesChain(g: Graph, r: ThreadState, i: nat, j: nat)
    requires r.Running? && i <= j <= |r.frames| && forall k :: 0 <= k < |r.frames| ==> FrameOk(g, r, k)
    ensures Chain(g, NodeAt(r, i), CallsOf(r.frames[i..j]), NodeAt(r, j))
    decreases j - i
  {
    if i == j {
      assert r.frames[i..j] == [];
    } else {
      FramesChain(g, r, i, j - 1);
      FrameAdds(g, r, i, j);
    }
  }

  lemma FrameAdds(g: Graph, r: ThreadState, i: nat, j: nat)
    requires r.Running? && i < j <= |r.frames| && FrameOk(g, r, j - 1)
    requires Chain(g, NodeAt(r, i), CallsOf(r.frames[i..j - 1]), NodeAt(r, j - 1))
    ensures Chain(g, NodeAt(r, i), CallsOf(r.frames[i..j]), NodeAt(r, j))
  {
    CallsOfSlice(r.frames, i, j);
    ChainSnoc(g, NodeAt(r, i), CallsOf(r.frames[i..j - 1]), NodeAt(r, j - 1), r.frames[j - 1].call, NodeAt(r, j));
  }

  lemma {:induction false} HeldOnTop(before: seq<Name>, calls: seq<Call>)
    ensures HeldAlong(before, calls) == before + HeldAlong([], calls)
    decreases |calls|
  {
    if calls != [] {
      HeldOnTop(before, Init(calls));
      var c := Last(calls);
      Regroup(before, HeldAlong([], Init(calls)), if c.kind == Guarded then [c.dest.instance] else []);
    }
  }

  lemma {:induction false} LocksAppend(a: seq<Frame>, b: seq<Frame>)
    ensures Locks(a + b) == Locks(a) + Locks(b)
  {
    if b == [] {
      assert a + b == a;
    } else {
      LocksAppend(a, Init(b));
      assert a + b == (a + Init(b)) + [Last(b)];
      LocksSnoc(a + Init(b), Last(b));
    }
  }

  lemma {:induction false} LockHasFrame(frames: seq<Frame>, m: Name) returns (i: nat)
    requires m in Locks(frames)
    ensures i < |frames| && frames[i].call.kind == Guarded && frames[i].call.dest.instance == m
  {
    LocksSnoc(Init(frames), Last(frames));
    assert frames == Init(frames) + [Last(frames)];
    if m in Locks(Init(frames)) {
      i := LockHasFrame(Init(frames), m);
    } else {
      i := |frames| - 1;
    }
  }

  /** The guarded calls on a thread's stack are ones its own messages lead to. */
  lemma StackCallsGuarded(g: Graph, t: Name, r: ThreadState, i: nat)
    requires t in g.ownThread && r.Running? && ThreadOk(g, t, r) && i < |r.frames| && r.frames[i].call.kind == Guarded
    ensures CallsGuarded(g, t, r.frames[i].call.dest)
  {
    FramesAreAChain(g, t, r, 0, i);
    assert FrameOk(g, r, i);
    assert GuardedCallVia(g, t, r.port, r.first, CallsOf(r.frames[0..i]), NodeAt(r, i), r.frames[i].call);
  }

  lemma SuffixStaysDistinct(before: seq<Name>, held: seq<Name>)
    requires NoDup(before + held)
    ensures NoDup(held) && forall x :: x in held ==> x in before + held
  {
    assert forall k :: 0 <= k < |held| ==> (before + held)[|before| + k] == held[k];
  }

  /** The mutexes held along the frames above a guarded one are the last ones on the stack. */
  lemma HeldSuffix(frames: seq<Frame>, i: nat)
    requires i < |frames| && frames[i].call.kind == Guarded && NoDup(Locks(frames))
    ensures var m := frames[i].call.dest.instance;
      var held := HeldAlong([m], CallsOf(frames[i + 1..]));
      NoDup(held) && m in held && forall x :: x in held ==> x in Locks(frames)
  {
    var m, above, below := frames[i].call.dest.instance, frames[i + 1..], frames[..i];
    HeldOnTop([m], CallsOf(above));
    LocksSnoc(below, frames[i]);
    LocksAppend(below + [frames[i]], above);
    assert frames == (below + [frames[i]]) + above;
    Regroup(Locks(below), [m], Locks(above));
    SuffixStaysDistinct(Locks(below), [m] + Locks(above));
  }

  /** A thread that holds one mutex and waits for another nests the second in the first. */
  lemma WaitingNests(g: Graph, t: Name, r: ThreadState, m: Name)
    returns (entry: PortKey)
    requires t in g.ownThread && r.Running? && ThreadOk(g, t, r) && r.pending.Some? && m in Locks(r.frames)
    requires r.pending.value.dest.instance in Locks(r.frames) ==> r.pending.value.dest.instance == m
    ensures Nests(g, entry, m, r.pending.value.dest.instance) && CallsGuarded(g, t, entry)
  {
    var i := LockHasFrame(r.frames, m);
    entry := r.frames[i].call.dest;
    StackCallsGuarded(g, t, r, i);
    assert FrameOk(g, r, i);
    StackNests(g, t, r, i);
  }

  lemma StackNests(g: Graph, t: Name, r: ThreadState, i: nat)
    requires r.Running? && ThreadOk(g, t, r) && r.pending.Some?
    requires i < |r.frames| && FrameOk(g, r, i) && r.frames[i].call.kind == Guarded
    requires var m, x := r.frames[i].call.dest.instance, r.pending.value.dest.instance; x in Locks(r.frames) ==> x == m
    ensures Nests(g, r.frames[i].call.dest, r.frames[i].call.dest.instance, r.pending.value.dest.instance)
  {
    var calls := CallsOf(r.frames[i + 1..]);
    HeldSuffix(r.frames, i);
    EnteredBy(g, r, i);
    ChainAbove(g, t, r, i + 1);
    ChainNests(g, r.frames[i].call.dest, r.frames[i].node, calls, TopNode(r), r.pending.value);
  }

  lemma ChainAbove(g: Graph, t: Name, r: ThreadState, i: nat)
    requires r.Running? && ThreadOk(g, t, r) && i <= |r.frames|
    ensures Chain(g, NodeAt(r, i), CallsOf(r.frames[i..]), TopNode(r))
  {
    FramesAreAChain(g, t, r, i, |r.frames|);
    SameSlice(r.frames, i);
  }

  lemma EnteredBy(g: Graph, r: ThreadState, i: nat)
    requires r.Running? && i < |r.frames| && FrameOk(g, r, i)
    ensures r.frames[i].node in Entries(g, r.frames[i].call.dest, r.frames[i].call.kind)
  {
  }

  lemma SameSlice<T>(s: seq<T>, i: nat)
    requires i <= |s|
    ensures s[i..] == s[i..|s|]
  {
  }

  lemma ChainNests(g: Graph, entry: PortKey, n0: Node, calls: seq<Call>, n: Node, c: Call)
    requires n0 in Entries(g, entry, Guarded) && Chain(g, n0, calls, n) && c in Calls(g, n) && c.kind == Guarded
    requires var held := HeldAlong([entry.instance], calls);
      NoDup(held) && entry.instance in held && (c.dest.instance in held ==> c.dest.instance == entry.instance)
    ensures Nests(g, entry, entry.instance, c.dest.instance)
  {
    assert NestsVia(g, entry, n0, calls, n, c, entry.instance, c.dest.instance);
  }

  // ---------------------------------------------------------------------------------------------
  // Threads waiting in a circle
  // ---------------------------------------------------------------------------------------------

  ghost predicate Waits(s: State, t: Name) {
    t in s.threads && s.threads[t].Running? && s.threads[t].pending.Some?
    && s.threads[t].pending.value.dest.instance in s.owner
  }

  /** The mutex a waiting thread waits for, and the thread that owns it. */
  function Wanted(s: State, t: Name): Name {
    if t in s.threads && s.threads[t].Running? && s.threads[t].pending.Some? then
      s.threads[t].pending.value.dest.instance
    else 0
  }

  function Blocker(s: State, t: Name): Name {
    if Wanted(s, t) in s.owner then s.owner[Wanted(s, t)] else 0
  }

  /** Each thread waits for a mutex of the next one; a circle of one waits for a mutex it holds itself. */
  ghost predicate CircularWait(s: State, ts: seq<Name>) {
    ts != [] && NoDup(ts) && forall i :: 0 <= i < |ts| ==> Waits(s, ts[i]) && Blocker(s, ts[i]) == NextOn(ts, i)
  }

  /** The mutexes of the circle: each is held while the next is waited for. */
  function WantedMutexes(s: State, ts: seq<Name>): seq<Name> {
    seq(|ts|, i requires 0 <= i < |ts| => Wanted(s, ts[i]))
  }

  /** A waiting thread that owns a mutex drives the lock-order edge from it to the one it waits for. */
  lemma WaitIsRecorded(g: Graph, depth: int, maxStates: int, s: State, t: Name, m: Name)
    requires Uncut(g, depth, maxStates) && Consistent(g, s) && Waits(s, t) && Owns(s.owner, t, m)
    requires Owns(s.owner, t, Wanted(s, t)) ==> Wanted(s, t) == m
    ensures NestsFor(g, Thread(t), m, Wanted(s, t))
    ensures Seen(Observed(g, depth, maxStates), m, Wanted(s, t))
  {
    assert m in LocksOf(s, t);
    assert ThreadOk(g, t, s.threads[t]);
    assert Wanted(s, t) in LocksOf(s, t) <==> Owns(s.owner, t, Wanted(s, t));
    var entry := WaitingNests(g, t, s.threads[t], m);
    CallerIsAttributed(g, t, entry);
    NestingNeedsEntry(g, entry, m, Wanted(s, t));
    NoHitNothingLost(g, depth, entry, m, Wanted(s, t));
    assert TakenFrom(g, depth, entry, m, Wanted(s, t));
    TakenIsSeen(g, depth, maxStates, entry, m, Wanted(s, t));
  }

  lemma CirclePosition(s: State, ts: seq<Name>, i: nat)
    requires CircularWait(s, ts) && |ts| >= 2 && i < |ts|
    ensures var ws, t := WantedMutexes(s, ts), NextOn(ts, i);
      && ws[i] == Wanted(s, ts[i]) && NextOn(ws, i) == Wanted(s, t) && Waits(s, t)
      && Owns(s.owner, t, ws[i]) && !Owns(s.owner, t, NextOn(ws, i)) && ws[i] != NextOn(ws, i)
  {
    var ws := WantedMutexes(s, ts);
    var j := if i + 1 < |ts| then i + 1 else 0;
    assert NextOn(ts, i) == ts[j] && NextOn(ws, i) == ws[j];
    assert Waits(s, ts[i]) && Blocker(s, ts[i]) == ts[j];
    assert Waits(s, ts[j]) && Blocker(s, ts[j]) == NextOn(ts, j);
    assert NextOn(ts, j) != ts[j];
  }

  lemma DrivenEdge(g: Graph, depth: int, maxStates: int, o: Origin, holder: Name, acquired: Name)
    requires Uncut(g, depth, maxStates) && holder != acquired && NestsFor(g, o, holder, acquired)
    requires Seen(Observed(g, depth, maxStates), holder, acquired)
    ensures var edges := EdgesAfter(g, {}, Observed(g, depth, maxStates));
      (holder, acquired) in edges && o in edges[(holder, acquired)].threads
  {
    EdgesSummarise(g, {}, Observed(g, depth, maxStates), holder, acquired);
    EdgeThreadsAreExact(g, {}, depth, maxStates, (holder, acquired), o);
  }

  /** The edge out of position i of the lock cycle is driven by the thread that waits there. */
  lemma CircleEdge(g: Graph, depth: int, maxStates: int, s: State, ts: seq<Name>, i: nat)
    requires Uncut(g, depth, maxStates) && Consistent(g, s) && CircularWait(s, ts) && |ts| >= 2 && i < |ts|
    ensures var ws, edges := WantedMutexes(s, ts), EdgesAfter(g, {}, Observed(g, depth, maxStates));
      && (ws[i], NextOn(ws, i)) in edges && ws[i] != NextOn(ws, i)
      && Thread(NextOn(ts, i)) in edges[(ws[i], NextOn(ws, i))].threads
  {
    var ws, t := WantedMutexes(s, ts), NextOn(ts, i);
    CirclePosition(s, ts, i);
    WaitIsRecorded(g, depth, maxStates, s, t, ws[i]);
    DrivenEdge(g, depth, maxStates, Thread(t), ws[i], NextOn(ws, i));
  }

  lemma CircleIsCycle(g: Graph, depth: int, maxStates: int, s: State, ts: seq<Name>)
    requires Uncut(g, depth, maxStates) && Consistent(g, s) && CircularWait(s, ts) && |ts| >= 2
    ensures IsCycle(EdgesAfter(g, {}, Observed(g, depth, maxStates)).Keys, WantedMutexes(s, ts))
  {
    var ws := WantedMutexes(s, ts);
    forall i, j | 0 <= i < j < |ws| ensures ws[i] != ws[j] {
      assert Blocker(s, ts[i]) == NextOn(ts, i) && Blocker(s, ts[j]) == NextOn(ts, j);
      assert NextOn(ts, i) != NextOn(ts, j);
    }
    forall i | 0 <= i < |ws| ensures (ws[i], NextOn(ws, i)) in EdgesAfter(g, {}, Observed(g, depth, maxStates)).Keys {
      CircleEdge(g, depth, maxStates, s, ts, i);
    }
  }

  lemma RotatedAt<T>(c: seq<Name>, k: nat, i: nat)
    requires k < |c| && i < |c|
    ensures var j := if i + k < |c| then i + k else i + k - |c|;
      Rotate(c, k)[i] == c[j] && NextOn(Rotate(c, k), i) == NextOn(c, j)
  {
  }

  /** The lock cycle of a circle of threads is, up to rotation, a hazard of the lock-order graph. */
  lemma CircleIsHazard(g: Graph, depth: int, maxStates: int, s: State, ts: seq<Name>) returns (k: nat)
    requires Uncut(g, depth, maxStates) && Consistent(g, s) && CircularWait(s, ts) && |ts| >= 2
    ensures k < |ts| && Hazard(EdgesAfter(g, {}, Observed(g, depth, maxStates)), Rotate(WantedMutexes(s, ts), k))
  {
    var edges, ws := EdgesAfter(g, {}, Observed(g, depth, maxStates)), WantedMutexes(s, ts);
    CircleIsCycle(g, depth, maxStates, s, ts);
    k := CanonicalRotation(edges.Keys, ws);
    CircleConflicts(g, depth, maxStates, s, ts, k);
  }

  lemma CircleConflicts(g: Graph, depth: int, maxStates: int, s: State, ts: seq<Name>, k: nat)
    requires Uncut(g, depth, maxStates) && Consistent(g, s) && CircularWait(s, ts) && |ts| >= 2 && k < |ts|
    requires IsCycle(EdgesAfter(g, {}, Observed(g, depth, maxStates)).Keys, WantedMutexes(s, ts))
    requires IsCycle(EdgesAfter(g, {}, Observed(g, depth, maxStates)).Keys, Rotate(WantedMutexes(s, ts), k))
    ensures DistinctPossible(CycleEdges(EdgesAfter(g, {}, Observed(g, depth, maxStates)),
        Rotate(WantedMutexes(s, ts), k)))
  {
    var edges, ws, j := EdgesAfter(g, {}, Observed(g, depth, maxStates)), WantedMutexes(s, ts), After(ts, k);
    CircleEdge(g, depth, maxStates, s, ts, k);
    CircleEdge(g, depth, maxStates, s, ts, j);
    assert NextOn(ts, k) == ts[j] && NextOn(ts, j) != ts[j];
    EdgesConflict(edges, ws, k, NextOn(ts, k), NextOn(ts, j));
  }

  function After(ts: seq<Name>, k: nat): nat { if k + 1 < |ts| then k + 1 else 0 }

  /** Two neighbouring edges of a cycle that different threads drive, wherever the cycle is made to start. */
  lemma EdgesConflict(edges: EdgeMap, ws: seq<Name>, k: nat, t: Name, u: Name)
    requires IsCycle(edges.Keys, ws) && k < |ws| && IsCycle(edges.Keys, Rotate(ws, k)) && t != u
    requires Thread(t) in edges[(ws[k], NextOn(ws, k))].threads
    requires var j := After(ws, k); Thread(u) in edges[(ws[j], NextOn(ws, j))].threads
    ensures DistinctPossible(CycleEdges(edges, Rotate(ws, k)))
  {
    var c := Rotate(ws, k);
    var es := CycleEdges(edges, c);
    CycleEdgesAreAll(edges, c, 0);
    RotatedAt<Name>(ws, k, 0);
    RotatedAt<Name>(ws, k, 1);
    assert Thread(t) in RealThreads(es[0]) && Thread(u) in RealThreads(es[1]);
    assert Conflict(es[0], es[1]);
  }

  // ---------------------------------------------------------------------------------------------
  // The main theorems
  // ---------------------------------------------------------------------------------------------

  /**
   * A run that saw everything: nothing suppressed, no walk truncated and no cap reached, which the flag tells, and no
   * chain of the topology hits the depth bound, which it does not.
   */
  ghost predicate Thorough(g: Graph, depth: int, maxStates: int, maxCycles: int, edges: EdgeMap,
      findings: seq<Finding>) {
    Finished(g, {}, depth, maxStates, maxCycles, edges, findings, false) && Uncut(g, depth, maxStates)
  }

  /** A report about this circle: its lock cycle from the smallest mutex on, or the mutex re-entered. */
  ghost predicate ReportedCircle(fs: seq<Finding>, s: State, ts: seq<Name>) {
    if |ts| == 1 then Reports(fs, Wanted(s, ts[0]))
    else exists k :: 0 <= k < |ts| && HasCycle(fs, Rotate(WantedMutexes(s, ts), k))
  }

  lemma SelfWaitReported(g: Graph, depth: int, maxStates: int, s: State, t: Name)
    requires Uncut(g, depth, maxStates) && Consistent(g, s) && CircularWait(s, [t])
    ensures Reports(SelfAfter(g, {}, Observed(g, depth, maxStates)), Wanted(s, t))
  {
    assert Waits(s, [t][0]) && Blocker(s, [t][0]) == NextOn([t], 0);
    WaitIsRecorded(g, depth, maxStates, s, t, Wanted(s, t));
    SelfFindingsAreExact(g, {}, Observed(g, depth, maxStates));
  }

  /** Deadlock soundness: whatever circle of threads a run of the system gets into, the analysis reports it. */
  lemma DeadlockSound(g: Graph, depth: int, maxStates: int, maxCycles: int, edges: EdgeMap, findings: seq<Finding>,
                      run: seq<State>, i: nat, ts: seq<Name>)
    requires Thorough(g, depth, maxStates, maxCycles, edges, findings) && IsRun(g, run) && i < |run|
        && CircularWait(run[i], ts)
    ensures ReportedCircle(findings, run[i], ts)
  {
    var s := run[i];
    RunStaysConsistent(g, run, i);
    if |ts| == 1 {
      assert ts == [ts[0]];
      SelfWaitReported(g, depth, maxStates, s, ts[0]);
      FindingsAreSelfReports(g, {}, depth, maxStates, maxCycles, edges, findings, false, Wanted(s, ts[0]));
    } else {
      var k := CircleIsHazard(g, depth, maxStates, s, ts);
      FindingsAreHazards(g, {}, depth, maxStates, maxCycles, edges, findings, false, Rotate(WantedMutexes(s, ts), k));
    }
  }

  /** A set of threads none of which can go on: each waits for a mutex owned by one of them. */
  ghost predicate Deadlocked(s: State, stuck: set<Name>) {
    stuck != {} && forall t :: t in stuck ==> Waits(s, t) && Blocker(s, t) in stuck
  }

  /** Nobody in the set can take a step, and nobody outside can take a mutex from one in it. */
  lemma DeadlockStays(g: Graph, s: State, t: Name, step: Step, s': State, stuck: set<Name>)
    requires Consistent(g, s) && Deadlocked(s, stuck) && Runtime.Next(g, s, t, step, s')
    ensures Deadlocked(s', stuck) && forall u :: u in stuck ==> s'.threads[u] == s.threads[u]
  {
    assert t !in stuck by {
      assert t in stuck ==> Waits(s, t);
    }
    forall u | u in stuck ensures Waits(s', u) && Blocker(s', u) == Blocker(s, u) && s'.threads[u] == s.threads[u] {
      assert Waits(s, u) && Blocker(s, u) != t;
      if step.Return? && s.threads[t].frames != [] && Last(s.threads[t].frames).call.kind == Guarded {
        TopIsOwned(g, s, t);
      }
    }
  }

  lemma TopIsOwned(g: Graph, s: State, t: Name)
    requires Consistent(g, s) && t in s.threads && s.threads[t].Running? && s.threads[t].frames != []
    requires Last(s.threads[t].frames).call.kind == Guarded
    ensures Owns(s.owner, t, Last(s.threads[t].frames).call.dest.instance)
  {
    var frames := s.threads[t].frames;
    assert frames == Init(frames) + [Last(frames)];
    LocksSnoc(Init(frames), Last(frames));
    assert Locks(frames)[|Locks(frames)| - 1] == Last(frames).call.dest.instance;
    assert Last(frames).call.dest.instance in LocksOf(s, t);
  }

  /** A deadlock is for ever: whatever the other threads do, the threads in it stay where they are. */
  lemma {:induction false} DeadlockIsPermanent(g: Graph, run: seq<State>, i: nat, j: nat, stuck: set<Name>)
    requires IsRun(g, run) && i <= j < |run| && Deadlocked(run[i], stuck)
    ensures Deadlocked(run[j], stuck) && forall t :: t in stuck ==> run[j].threads[t] == run[i].threads[t]
    decreases j - i
  {
    if i < j {
      DeadlockIsPermanent(g, run, i, j - 1, stuck);
      DeadlockGoesOn(g, run, j - 1, stuck);
    }
  }

  lemma DeadlockGoesOn(g: Graph, run: seq<State>, i: nat, stuck: set<Name>)
    requires IsRun(g, run) && i + 1 < |run| && Deadlocked(run[i], stuck)
    ensures Deadlocked(run[i + 1], stuck) && forall t :: t in stuck ==> run[i + 1].threads[t] == run[i].threads[t]
  {
    RunStaysConsistent(g, run, i);
    assert Steps(g, run[i], run[i + 1]);
    var t, step :| Runtime.Next(g, run[i], t, step, run[i + 1]);
    DeadlockStays(g, run[i], t, step, run[i + 1], stuck);
  }

  lemma {:induction false} FollowBlockers(s: State, stuck: set<Name>, path: seq<Name>) returns (ts: seq<Name>)
    requires Deadlocked(s, stuck) && path != [] && NoDup(path) && forall t :: t in path ==> t in stuck
    requires forall i :: 0 <= i < |path| - 1 ==> Blocker(s, path[i]) == path[i + 1]
    ensures CircularWait(s, ts)
    decreases |stuck| - |path|
  {
    NoDupBounded(path, stuck);
    var next := Blocker(s, Last(path));
    if next in path {
      var j :| 0 <= j < |path| && path[j] == next;
      ts := path[j..];
    } else {
      NoDupBounded(path + [next], stuck);
      ts := FollowBlockers(s, stuck, path + [next]);
    }
  }

  /** An analysis without findings proves that no run of the system deadlocks. */
  lemma NoFindingsNoDeadlock(g: Graph, depth: int, maxStates: int, maxCycles: int, edges: EdgeMap,
                             run: seq<State>, i: nat, stuck: set<Name>)
    requires Thorough(g, depth, maxStates, maxCycles, edges, []) && IsRun(g, run) && i < |run|
    ensures !Deadlocked(run[i], stuck)
  {
    if Deadlocked(run[i], stuck) {
      var t :| t in stuck;
      var ts := FollowBlockers(run[i], stuck, [t]);
      DeadlockSound(g, depth, maxStates, maxCycles, edges, [], run, i, ts);
    }
  }

  /** A bound of at least the number of guarded instances is enough, whatever the chains are. */
  lemma NoFindingsNoDeadlockWithRoom(g: Graph, depth: int, maxStates: int, maxCycles: int, edges: EdgeMap,
                                     run: seq<State>, i: nat, stuck: set<Name>)
    requires Finished(g, {}, depth, maxStates, maxCycles, edges, [], false) && !Build(g, depth, maxStates).truncated
    requires Bound(depth) >= |GuardedInstances(g)| && IsRun(g, run) && i < |run|
    ensures !Deadlocked(run[i], stuck)
  {
    RoomForAllIsNeverHit(g, depth);
    NoFindingsNoDeadlock(g, depth, maxStates, maxCycles, edges, run, i, stuck);
  }
}
