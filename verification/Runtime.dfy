/**
 * The runtime the deadlock analysis describes (guarded_port_analyzer.py and README.md): every instance with its
 * own thread runs handlers on one stack, and every instance has one mutex that is not recursive.
 */
module Runtime {
  import opened Basics
  import opened Graph
  import opened LockOrder

  // A handler that was called, and the call that runs it.
  datatype Frame = Frame(call: Call, node: Node)

  // A running thread services one message: it entered `first` through the async port, then made nested calls.
  // A pending call waits for the mutex of the instance it calls.
  datatype ThreadState =
    | Idle
    | Running(port: PortKey, first: Node, frames: seq<Frame>, pending: Option<Call>)

  datatype State = State(threads: map<Name, ThreadState>, owner: map<Name, Name>)

  ghost predicate Initial(g: Graph, s: State) {
    && s.threads.Keys == g.ownThread && s.owner == map[]
    && (forall t :: t in s.threads ==> s.threads[t].Idle?)
  }

  function NodeAt(r: ThreadState, i: nat): Node
    requires r.Running? && i <= |r.frames|
  {
    if i == 0 then r.first else r.frames[i - 1].node
  }

  function TopNode(r: ThreadState): Node
    requires r.Running?
  {
    NodeAt(r, |r.frames|)
  }

  datatype Step =
    | Wake(port: PortKey, node: Node)  // take a message off the queue
    | CallSync(call: Call, node: Node)
    | Request(call: Call)              // call a guarded port: first lock its instance's mutex
    | Acquire(node: Node)              // the mutex is free
    | Pass                             // the mutex is free and no handler stands behind the port
    | Post(call: Call)                 // an async call only queues a message
    | Return

  /** One step of thread t. */
  ghost predicate Next(g: Graph, s: State, t: Name, step: Step, s': State) {
    t in s.threads &&
    var r := s.threads[t];
    match step
    case Wake(port, node) =>
      r.Idle? && port.instance == t && node in Entries(g, port, Async)
      && s' == s.(threads := s.threads[t := Running(port, node, [], None)])
    case CallSync(c, node) =>
      r.Running? && r.pending == None && c in Calls(g, TopNode(r)) && c.kind == Sync && node in Entries(g, c.dest, Sync)
      && s' == s.(threads := s.threads[t := r.(frames := r.frames + [Frame(c, node)])])
    case Request(c) =>
      r.Running? && r.pending == None && c in Calls(g, TopNode(r)) && c.kind == Guarded
      && s' == s.(threads := s.threads[t := r.(pending := Some(c))])
    case Acquire(node) =>
      r.Running? && r.pending.Some? && r.pending.value.dest.instance !in s.owner
      && node in Entries(g, r.pending.value.dest, Guarded)
      && s' == State(s.threads[t := r.(frames := r.frames + [Frame(r.pending.value, node)], pending := None)],
                     s.owner[r.pending.value.dest.instance := t])
    case Pass =>
      r.Running? && r.pending.Some? && r.pending.value.dest.instance !in s.owner
      && Entries(g, r.pending.value.dest, Guarded) == []
      && s' == s.(threads := s.threads[t := r.(pending := None)])
    case Post(c) =>
      r.Running? && r.pending == None && c in Calls(g, TopNode(r)) && c.kind == Async && s' == s
    case Return =>
      r.Running? && r.pending == None &&
      if r.frames == [] then s' == s.(threads := s.threads[t := Idle])
      else
        s' == State(s.threads[t := r.(frames := Init(r.frames))],
                    if Last(r.frames).call.kind == Guarded then s.owner - {Last(r.frames).call.dest.instance}
                    else s.owner)
  }

  ghost predicate Steps(g: Graph, s: State, s': State) {
    exists t, step :: Next(g, s, t, step, s')
  }

  ghost predicate IsRun(g: Graph, run: seq<State>) {
    run != [] && Initial(g, run[0])
    && forall i :: 0 <= i < |run| - 1 ==> Steps(g, run[i], run[i + 1])
  }

  // ---------------------------------------------------------------------------------------------
  // What every step keeps
  // ---------------------------------------------------------------------------------------------

  ghost function CallsOf(frames: seq<Frame>): seq<Call> {
    if frames == [] then [] else CallsOf(Init(frames)) + [Last(frames).call]
  }

  /** The mutexes taken along some frames, in order. */
  ghost function Locks(frames: seq<Frame>): seq<Name> {
    HeldAlong([], CallsOf(frames))
  }

  ghost predicate FrameOk(g: Graph, r: ThreadState, i: nat)
    requires r.Running? && i < |r.frames|
  {
    ThreadStep(g, NodeAt(r, i), r.frames[i].call, r.frames[i].node)
  }

  ghost predicate ThreadOk(g: Graph, t: Name, r: ThreadState) {
    r.Running? ==>
      && r.port.instance == t && r.first in Entries(g, r.port, Async)
      && (forall i :: 0 <= i < |r.frames| ==> FrameOk(g, r, i))
      && (r.pending.Some? ==> r.pending.value in Calls(g, TopNode(r)) && r.pending.value.kind == Guarded)
      && NoDup(Locks(r.frames))
  }

  ghost function Taken(r: ThreadState): seq<Name> {
    if r.Running? then Locks(r.frames) else []
  }

  ghost function LocksOf(s: State, t: Name): seq<Name> {
    if t in s.threads then Taken(s.threads[t]) else []
  }

  predicate Owns(owner: map<Name, Name>, t: Name, m: Name) {
    m in owner && owner[m] == t
  }

  /** A mutex is owned by exactly the thread whose frames have taken it. */
  ghost predicate Consistent(g: Graph, s: State) {
    && s.threads.Keys == g.ownThread
    && (forall t :: t in s.threads ==> ThreadOk(g, t, s.threads[t]))
    && (forall t, m :: m in LocksOf(s, t) <==> Owns(s.owner, t, m))
  }

  lemma LocksSnoc(frames: seq<Frame>, f: Frame)
    ensures Locks(frames + [f]) == Locks(frames) + if f.call.kind == Guarded then [f.call.dest.instance] else []
  {
    assert Init(frames + [f]) == frames;
    assert CallsOf(frames + [f]) == CallsOf(frames) + [f.call];
    assert Init(CallsOf(frames + [f])) == CallsOf(frames);
  }

  lemma PushKeepsThread(g: Graph, t: Name, r: ThreadState, c: Call, node: Node)
    requires r.Running? && ThreadOk(g, t, r) && ThreadStep(g, TopNode(r), c, node)
    requires c.kind == Guarded ==> c.dest.instance !in Locks(r.frames)
    ensures ThreadOk(g, t, r.(frames := r.frames + [Frame(c, node)], pending := None))
  {
    var r' := r.(frames := r.frames + [Frame(c, node)], pending := None);
    LocksSnoc(r.frames, Frame(c, node));
    forall i | 0 <= i < |r'.frames| ensures FrameOk(g, r', i) {
      if i < |r.frames| {
        assert FrameOk(g, r, i);
        assert NodeAt(r', i) == NodeAt(r, i);
      }
    }
  }

  lemma PopKeepsThread(g: Graph, t: Name, r: ThreadState)
    requires r.Running? && ThreadOk(g, t, r) && r.frames != [] && r.pending == None
    ensures ThreadOk(g, t, r.(frames := Init(r.frames)))
  {
    var r' := r.(frames := Init(r.frames));
    var last := Last(r.frames);
    LocksSnoc(r'.frames, last);
    assert r.frames == r'.frames + [last];
    PrefixesStayDistinct(Locks(r'.frames), if last.call.kind == Guarded then [last.call.dest.instance] else []);
    forall i | 0 <= i < |r'.frames| ensures FrameOk(g, r', i) {
      assert FrameOk(g, r, i);
      assert NodeAt(r', i) == NodeAt(r, i);
    }
  }

  /** One thread changes; the mutexes its frames have taken are those it now owns. */
  lemma ThreadUpdate(g: Graph, s: State, t: Name, r': ThreadState, owner': map<Name, Name>)
    requires Consistent(g, s) && t in s.threads && ThreadOk(g, t, r')
    requires forall m :: m in Taken(r') <==> Owns(owner', t, m)
    requires forall u, m :: u != t ==> (Owns(owner', u, m) <==> Owns(s.owner, u, m))
    ensures Consistent(g, State(s.threads[t := r'], owner'))
  {
    var s' := State(s.threads[t := r'], owner');
    forall u, m ensures m in LocksOf(s', u) <==> Owns(s'.owner, u, m) {
      if u != t {
        assert LocksOf(s', u) == LocksOf(s, u);
      }
    }
  }

  /** The owner map already agrees with what the thread holds. */
  lemma OwnLocks(g: Graph, s: State, t: Name)
    requires Consistent(g, s) && t in s.threads
    ensures forall m :: m in Taken(s.threads[t]) <==> Owns(s.owner, t, m)
  {
    assert forall m :: m in LocksOf(s, t) <==> Owns(s.owner, t, m);
  }

  lemma AcquireKeeps(g: Graph, s: State, t: Name, node: Node, s': State)
    requires Consistent(g, s) && Next(g, s, t, Acquire(node), s')
    ensures Consistent(g, s')
  {
    var r := s.threads[t];
    var c := r.pending.value;
    var r' := r.(frames := r.frames + [Frame(c, node)], pending := None);
    OwnLocks(g, s, t);
    assert ThreadOk(g, t, r);
    assert c.dest.instance !in Taken(r);
    PushKeepsThread(g, t, r, c, node);
    LocksSnoc(r.frames, Frame(c, node));
    forall m ensures m in Taken(r') <==> Owns(s'.owner, t, m) {
      assert m in Taken(r) <==> Owns(s.owner, t, m);
    }
    ThreadUpdate(g, s, t, r', s'.owner);
  }

  lemma ReturnKeeps(g: Graph, s: State, t: Name, s': State)
    requires Consistent(g, s) && Next(g, s, t, Return, s') && s.threads[t].frames != []
    ensures Consistent(g, s')
  {
    var r := s.threads[t];
    var last, r' := Last(r.frames), r.(frames := Init(r.frames));
    OwnLocks(g, s, t);
    assert ThreadOk(g, t, r);
    PopKeepsThread(g, t, r);
    LocksSnoc(r'.frames, last);
    assert r.frames == r'.frames + [last];
    var taken := if last.call.kind == Guarded then [last.call.dest.instance] else [];
    PrefixesStayDistinct(Taken(r'), taken);
    forall m ensures m in Taken(r') <==> Owns(s'.owner, t, m) {
      assert m in Taken(r) <==> Owns(s.owner, t, m);
      assert m in Taken(r) <==> m in Taken(r') || m in taken;
    }
    if last.call.kind == Guarded {
      assert taken[0] in Taken(r);
      assert Owns(s.owner, t, taken[0]);
    }
    ThreadUpdate(g, s, t, r', s'.owner);
  }

  lemma StepKeepsConsistent(g: Graph, s: State, t: Name, step: Step, s': State)
    requires Consistent(g, s) && Next(g, s, t, step, s')
    ensures Consistent(g, s')
  {
    var r := s.threads[t];
    OwnLocks(g, s, t);
    assert ThreadOk(g, t, r);
    match step {
      case Wake(port, node) =>
        ThreadUpdate(g, s, t, Running(port, node, [], None), s.owner);
      case CallSync(c, node) =>
        PushKeepsThread(g, t, r, c, node);
        LocksSnoc(r.frames, Frame(c, node));
        ThreadUpdate(g, s, t, r.(frames := r.frames + [Frame(c, node)]), s.owner);
      case Request(c) =>
        PendingKeepsThread(g, t, r, Some(c));
        ThreadUpdate(g, s, t, r.(pending := Some(c)), s.owner);
      case Acquire(node) =>
        AcquireKeeps(g, s, t, node, s');
      case Pass =>
        PendingKeepsThread(g, t, r, None);
        ThreadUpdate(g, s, t, r.(pending := None), s.owner);
      case Post(c) =>
      case Return =>
        if r.frames != [] {
          ReturnKeeps(g, s, t, s');
        } else {
          ThreadUpdate(g, s, t, Idle, s.owner);
        }
    }
  }

  lemma PendingKeepsThread(g: Graph, t: Name, r: ThreadState, c: Option<Call>)
    requires r.Running? && ThreadOk(g, t, r) && (c.Some? ==> c.value in Calls(g, TopNode(r)) && c.value.kind == Guarded)
    ensures ThreadOk(g, t, r.(pending := c))
  {
    var r' := r.(pending := c);
    forall i | 0 <= i < |r'.frames| ensures FrameOk(g, r', i) {
      assert FrameOk(g, r, i);
      assert NodeAt(r', i) == NodeAt(r, i);
    }
    assert TopNode(r') == TopNode(r);
  }

  lemma {:induction false} RunStaysConsistent(g: Graph, run: seq<State>, i: nat)
    requires IsRun(g, run) && i < |run|
    ensures Consistent(g, run[i])
  {
    if i > 0 {
      RunStaysConsistent(g, run, i - 1);
      assert Steps(g, run[i - 1], run[i - 1 + 1]);
      var t, step :| Next(g, run[i - 1], t, step, run[i - 1 + 1]);
      StepKeepsConsistent(g, run[i - 1], t, step, run[i]);
    }
  }
}
